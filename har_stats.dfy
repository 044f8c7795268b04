/**
 * The HAR statistics pass: classification of a response by MIME type, the single forward pass over
 * `log.entries` that builds the metrics summary, and the choice of the busiest domains for display.
 */
module HarStats {
  import opened Wrappers
  import opened OrderedDict
  import opened JsArray
  import JsObject

  // ---------------------------------------------------------------------------------------------
  // The fields of a HAR 1.2 entry that the pass reads

  /** `entry.timings`: each phase may be absent. */
  datatype Timings = Timings(
    blocked: Option<int>, dns: Option<int>, connect: Option<int>,
    send: Option<int>, wait: Option<int>, receive: Option<int>)

  /**
   * One entry: `request.url`, `response.status`, `response.content.mimeType`,
   * `response.content.size`, `time` and `timings`.
   */
  datatype Entry = Entry(
    url: string, status: int, mimeType: Option<string>,
    size: Option<int>, time: Option<int>, timings: Option<Timings>)

  function Min(a: int, b: int): int {
    if a < b then a else b
  }

  // ---------------------------------------------------------------------------------------------
  // Resource types

  datatype ResourceType = Html | Css | Js | Image | Font | Video | Audio | Other

  /** `s.includes(sub)`: `sub` occurs in `s` at some position. */
  predicate Contains(s: string, sub: string) {
    |sub| <= |s| && (s[..|sub|] == sub || Contains(s[1..], sub))
  }

  /** The substring tests of the classifier, in the order they are tried. */
  const Rules: seq<(string, ResourceType)> := [
    ("text/html", Html), ("text/css", Css), ("javascript", Js), ("image", Image),
    ("font", Font), ("video", Video), ("audio", Audio)]

  /** A reference classifier driven by a rule table: the rules from index `k` on are tried in order. */
  function FirstMatch(rules: seq<(string, ResourceType)>, k: nat, mimeType: string): ResourceType
    decreases |rules| - k
  {
    if k >= |rules| then Other
    else if Contains(mimeType, rules[k].0) then rules[k].1
    else FirstMatch(rules, k + 1, mimeType)
  }

  /** The table-driven classifier returns the category of the first rule whose pattern occurs, and `Other` when none does. */
  lemma {:induction false} FirstMatchIsFirst(rules: seq<(string, ResourceType)>, k: nat, mimeType: string)
    requires forall i :: 0 <= i < |rules| ==> rules[i].1 != Other
    ensures FirstMatch(rules, k, mimeType) == Other <==>
      forall i :: k <= i < |rules| ==> !Contains(mimeType, rules[i].0)
    ensures forall i :: (k <= i < |rules| && Contains(mimeType, rules[i].0) &&
                         forall i' :: k <= i' < i ==> !Contains(mimeType, rules[i'].0))
                        ==> FirstMatch(rules, k, mimeType) == rules[i].1
    decreases |rules| - k
  {
    if k < |rules| {
      FirstMatchIsFirst(rules, k + 1, mimeType);
    }
  }

  /** `getResourceType`: a missing or empty MIME type is `other`; otherwise the first substring test that succeeds decides. */
  function GetResourceType(mimeType: Option<string>): ResourceType {
    match mimeType
    case None => Other
    case Some(m) =>
      if m == "" then Other
      else if Contains(m, "text/html") then Html
      else if Contains(m, "text/css") then Css
      else if Contains(m, "javascript") then Js
      else if Contains(m, "image") then Image
      else if Contains(m, "font") then Font
      else if Contains(m, "video") then Video
      else if Contains(m, "audio") then Audio
      else Other
  }

  /**
   * The if-chain is the rule table tried in order: a missing MIME type is `Other`, and a present one
   * (the empty one included) gets the category of the first pattern it contains, or `Other`.
   */
  lemma ResourceTypeIsFirstMatch(mimeType: Option<string>)
    ensures GetResourceType(mimeType) == (match mimeType case None => Other case Some(m) => FirstMatch(Rules, 0, m))
  {
    match mimeType
    case None =>
    case Some(m) =>
      assert FirstMatch(Rules, 0, m) == (if Contains(m, "text/html") then Html else FirstMatch(Rules, 1, m));
      assert FirstMatch(Rules, 1, m) == (if Contains(m, "text/css") then Css else FirstMatch(Rules, 2, m));
      assert FirstMatch(Rules, 2, m) == (if Contains(m, "javascript") then Js else FirstMatch(Rules, 3, m));
      assert FirstMatch(Rules, 3, m) == (if Contains(m, "image") then Image else FirstMatch(Rules, 4, m));
      assert FirstMatch(Rules, 4, m) == (if Contains(m, "font") then Font else FirstMatch(Rules, 5, m));
      assert FirstMatch(Rules, 5, m) == (if Contains(m, "video") then Video else FirstMatch(Rules, 6, m));
      assert FirstMatch(Rules, 6, m) == (if Contains(m, "audio") then Audio else FirstMatch(Rules, 7, m));
      assert FirstMatch(Rules, 7, m) == Other;
  }

  // ---------------------------------------------------------------------------------------------
  // Per-entry readings, with the `|| 0` defaults

  function TimeOf(e: Entry): int {
    e.time.GetOr(0)
  }

  function SizeOf(e: Entry): int {
    e.size.GetOr(0)
  }

  predicate IsFailure(e: Entry) {
    e.status >= 400
  }

  predicate IsSuccess(e: Entry) {
    200 <= e.status < 300
  }

  datatype Phase = Blocked | Dns | Connect | Send | Wait | Receive

  /** `(entry.timings || {})[phase] || 0`. */
  function PhaseOf(e: Entry, ph: Phase): int {
    match e.timings
    case None => 0
    case Some(t) =>
      match ph
      case Blocked => t.blocked.GetOr(0)
      case Dns => t.dns.GetOr(0)
      case Connect => t.connect.GetOr(0)
      case Send => t.send.GetOr(0)
      case Wait => t.wait.GetOr(0)
      case Receive => t.receive.GetOr(0)
  }

  // ---------------------------------------------------------------------------------------------
  // Aggregates over a sequence of entries: the reference the pass is proved against.
  // Each recurses on the last entry, the way the pass extends what it has seen.

  function Total(p: seq<Entry>, f: Entry -> int): int {
    if p == [] then 0 else Total(p[..|p| - 1], f) + f(p[|p| - 1])
  }

  function CountOf(p: seq<Entry>, keep: Entry -> bool): (n: nat)
    ensures n <= |p|
  {
    if p == [] then 0 else CountOf(p[..|p| - 1], keep) + (if keep(p[|p| - 1]) then 1 else 0)
  }

  function TypeCount(p: seq<Entry>, t: ResourceType): nat {
    if p == [] then 0
    else TypeCount(p[..|p| - 1], t) + (if GetResourceType(p[|p| - 1].mimeType) == t then 1 else 0)
  }

  function TypeSize(p: seq<Entry>, t: ResourceType): int {
    if p == [] then 0
    else TypeSize(p[..|p| - 1], t) + (if GetResourceType(p[|p| - 1].mimeType) == t then SizeOf(p[|p| - 1]) else 0)
  }

  function StatusCount(p: seq<Entry>, s: int): nat {
    if p == [] then 0 else StatusCount(p[..|p| - 1], s) + (if p[|p| - 1].status == s then 1 else 0)
  }

  function PhaseTotal(p: seq<Entry>, ph: Phase): int {
    if p == [] then 0 else PhaseTotal(p[..|p| - 1], ph) + PhaseOf(p[|p| - 1], ph)
  }

  /** Entries whose URL yields a hostname. */
  function ParsedCount(p: seq<Entry>, hostOf: string -> Option<string>): (n: nat)
    ensures n <= |p|
  {
    if p == [] then 0 else ParsedCount(p[..|p| - 1], hostOf) + (if hostOf(p[|p| - 1].url).Some? then 1 else 0)
  }

  function HostCount(p: seq<Entry>, hostOf: string -> Option<string>, h: string): nat {
    if p == [] then 0 else HostCount(p[..|p| - 1], hostOf, h) + (if hostOf(p[|p| - 1].url) == Some(h) then 1 else 0)
  }

  function HostSize(p: seq<Entry>, hostOf: string -> Option<string>, h: string): int {
    if p == [] then 0
    else HostSize(p[..|p| - 1], hostOf, h) + (if hostOf(p[|p| - 1].url) == Some(h) then SizeOf(p[|p| - 1]) else 0)
  }

  function HostTime(p: seq<Entry>, hostOf: string -> Option<string>, h: string): int {
    if p == [] then 0
    else HostTime(p[..|p| - 1], hostOf, h) + (if hostOf(p[|p| - 1].url) == Some(h) then TimeOf(p[|p| - 1]) else 0)
  }

  /** Success (2xx) and failure (>= 400) are disjoint, so together they never exceed the entries, and they reach it exactly when no status falls outside both ranges. */
  lemma {:induction false} SuccessFailureBound(p: seq<Entry>)
    ensures CountOf(p, IsSuccess) + CountOf(p, IsFailure) <= |p|
    ensures CountOf(p, IsSuccess) + CountOf(p, IsFailure) == |p| <==>
      forall j :: 0 <= j < |p| ==> IsSuccess(p[j]) || IsFailure(p[j])
  {
    if p != [] {
      var init := p[..|p| - 1];
      SuccessFailureBound(init);
      if forall j :: 0 <= j < |p| ==> IsSuccess(p[j]) || IsFailure(p[j]) {
        assert forall j :: 0 <= j < |init| ==> init[j] == p[j];
      }
      if CountOf(p, IsSuccess) + CountOf(p, IsFailure) == |p| {
        assert CountOf(init, IsSuccess) + CountOf(init, IsFailure) == |init|;
        forall j | 0 <= j < |p| ensures IsSuccess(p[j]) || IsFailure(p[j]) {
          if j < |init| {
            assert init[j] == p[j];
          }
        }
      }
    }
  }

  // ---------------------------------------------------------------------------------------------
  // The three dictionaries the pass fills

  datatype TypeStat = TypeStat(count: nat, size: int)

  datatype DomainStat = DomainStat(count: nat, size: int, time: int)

  function TypeStatCount(s: TypeStat): int { s.count }

  function TypeStatSize(s: TypeStat): int { s.size }

  function NatValue(n: nat): int { n }

  function DomainStatCount(s: DomainStat): int { s.count }

  /**
   * `resourceTypes[t]`, updated in place: created as `{count: 0, size: 0}` when missing, then the
   * count goes up by one and the size by `size`. No other bucket changes.
   */
  method AddToTypeBucket(types: Dict<ResourceType, TypeStat>, t: ResourceType, size: int) returns (r: Dict<ResourceType, TypeStat>)
    requires DistinctKeys(types)
    ensures DistinctKeys(r)
    ensures forall u :: u != t ==> Lookup(r, u) == Lookup(types, u)
    ensures Lookup(r, t) == Some(match Lookup(types, t)
                                 case None => TypeStat(1, size)
                                 case Some(b) => TypeStat(b.count + 1, b.size + size))
    ensures SumBy(r, TypeStatCount) == SumBy(types, TypeStatCount) + 1
    ensures SumBy(r, TypeStatSize) == SumBy(types, TypeStatSize) + size
  {
    // `if (!types[t]) types[t] = {count: 0, size: 0}` and the two increments, in one assignment
    var grown := match Lookup(types, t)
                 case None => TypeStat(1, size)
                 case Some(b) => TypeStat(b.count + 1, b.size + size);
    PutKeepsDistinct(types, t, grown);
    SumByPut(types, t, grown, TypeStatCount);
    SumByPut(types, t, grown, TypeStatSize);
    r := Put(types, t, grown);
    assert Lookup(r, t) == Some(grown);
    assert forall u :: u != t ==> Lookup(r, u) == Lookup(types, u);
  }

  /** `statusCodes[status]`, updated in place: created as 0 when missing, then incremented. No other code changes. */
  method AddToStatusBucket(codes: Dict<int, nat>, status: int) returns (r: Dict<int, nat>)
    requires DistinctKeys(codes)
    ensures DistinctKeys(r)
    ensures forall s :: s != status ==> Lookup(r, s) == Lookup(codes, s)
    ensures Lookup(r, status) == Some(Lookup(codes, status).GetOr(0) + 1)
    ensures SumBy(r, NatValue) == SumBy(codes, NatValue) + 1
  {
    var grown := Lookup(codes, status).GetOr(0) + 1;
    PutKeepsDistinct(codes, status, grown);
    SumByPut(codes, status, grown, NatValue);
    r := Put(codes, status, grown);
    assert Lookup(r, status) == Some(grown);
    assert forall s :: s != status ==> Lookup(r, s) == Lookup(codes, s);
  }

  /**
   * `domainStats[host]`, updated in place: created as `{count: 0, size: 0, time: 0}` when missing,
   * then count, size and time grow by one request. No other host changes.
   */
  method AddToDomainBucket(domains: Dict<string, DomainStat>, host: string, size: int, time: int) returns (r: Dict<string, DomainStat>)
    requires DistinctKeys(domains)
    ensures DistinctKeys(r)
    ensures forall h :: h != host ==> Lookup(r, h) == Lookup(domains, h)
    ensures Lookup(r, host) == Some(match Lookup(domains, host)
                                    case None => DomainStat(1, size, time)
                                    case Some(b) => DomainStat(b.count + 1, b.size + size, b.time + time))
    ensures SumBy(r, DomainStatCount) == SumBy(domains, DomainStatCount) + 1
  {
    var grown := match Lookup(domains, host)
                 case None => DomainStat(1, size, time)
                 case Some(b) => DomainStat(b.count + 1, b.size + size, b.time + time);
    PutKeepsDistinct(domains, host, grown);
    SumByPut(domains, host, grown, DomainStatCount);
    r := Put(domains, host, grown);
    assert Lookup(r, host) == Some(grown);
    assert forall h :: h != host ==> Lookup(r, h) == Lookup(domains, h);
  }

  /**
   * The domain update as the source writes it: the bucket is created only when `domainStats[host]` is
   * falsy, and on a plain object that lookup finds an inherited `Object.prototype` member for a host
   * such as `constructor`. The increments then land on that inherited value and the own bucket is
   * never created.
   */
  method AddToDomainBucketAsWritten(domains: Dict<string, DomainStat>, host: string, size: int, time: int)
    returns (r: Dict<string, DomainStat>)
    requires DistinctKeys(domains)
    ensures Lookup(domains, host).None? && host in JsObject.InheritedProperties ==> r == domains
    ensures host !in JsObject.InheritedProperties ==>
      && (forall h :: h != host ==> Lookup(r, h) == Lookup(domains, h))
      && Lookup(r, host) == Some(match Lookup(domains, host)
                                 case None => DomainStat(1, size, time)
                                 case Some(b) => DomainStat(b.count + 1, b.size + size, b.time + time))
  {
    if Lookup(domains, host).None? && host in JsObject.InheritedProperties {
      r := domains;
    } else {
      r := AddToDomainBucket(domains, host, size, time);
    }
  }

  /**
   * A request to `http://constructor/` (1000 bytes, 100 ms): as written, the domain statistics stay
   * empty; the corrected update opens a bucket holding that one request.
   */
  method InheritedHostnameIsDropped() returns (asWritten: Dict<string, DomainStat>, corrected: Dict<string, DomainStat>)
    ensures asWritten == [] && SumBy(asWritten, DomainStatCount) == 0
    ensures Lookup(corrected, "constructor") == Some(DomainStat(1, 1000, 100))
    ensures SumBy(corrected, DomainStatCount) == 1
  {
    assert "constructor" in JsObject.InheritedProperties;
    asWritten := AddToDomainBucketAsWritten([], "constructor", 1000, 100);
    corrected := AddToDomainBucket([], "constructor", 1000, 100);
  }

  /** What each dictionary holds after the entries `p`: exactly the keys seen, each with its own tally. */
  function TypeBucket(p: seq<Entry>, t: ResourceType): Option<TypeStat> {
    if TypeCount(p, t) == 0 then None else Some(TypeStat(TypeCount(p, t), TypeSize(p, t)))
  }

  function StatusBucket(p: seq<Entry>, s: int): Option<nat> {
    if StatusCount(p, s) == 0 then None else Some(StatusCount(p, s))
  }

  function DomainBucket(p: seq<Entry>, hostOf: string -> Option<string>, h: string): Option<DomainStat> {
    if HostCount(p, hostOf, h) == 0 then None
    else Some(DomainStat(HostCount(p, hostOf, h), HostSize(p, hostOf, h), HostTime(p, hostOf, h)))
  }

  /** Every entry lands in exactly one resource-type bucket: counts sum to the entries, sizes to the total size. */
  ghost predicate TypeTable(types: Dict<ResourceType, TypeStat>, p: seq<Entry>) {
    && DistinctKeys(types)
    && (forall t {:trigger TypeBucket(p, t)} :: Lookup(types, t) == TypeBucket(p, t))
    && SumBy(types, TypeStatCount) == |p|
    && SumBy(types, TypeStatSize) == Total(p, SizeOf)
  }

  /** Every entry lands in exactly one status-code bucket: the counts sum to the entries. */
  ghost predicate StatusTable(codes: Dict<int, nat>, p: seq<Entry>) {
    && DistinctKeys(codes)
    && (forall s {:trigger StatusBucket(p, s)} :: Lookup(codes, s) == StatusBucket(p, s))
    && SumBy(codes, NatValue) == |p|
  }

  /** Entries whose URL does not parse are in no domain bucket; the others in the bucket of their host. */
  ghost predicate DomainTable(domains: Dict<string, DomainStat>, p: seq<Entry>, hostOf: string -> Option<string>) {
    && DistinctKeys(domains)
    && (forall h {:trigger DomainBucket(p, hostOf, h)} :: Lookup(domains, h) == DomainBucket(p, hostOf, h))
    && SumBy(domains, DomainStatCount) == ParsedCount(p, hostOf)
  }

  /** One more entry: each aggregate adds that entry's contribution. */
  lemma AggregatesSnoc(p: seq<Entry>, e: Entry)
    ensures Total(p + [e], SizeOf) == Total(p, SizeOf) + SizeOf(e)
    ensures Total(p + [e], TimeOf) == Total(p, TimeOf) + TimeOf(e)
    ensures CountOf(p + [e], IsSuccess) == CountOf(p, IsSuccess) + (if IsSuccess(e) then 1 else 0)
    ensures CountOf(p + [e], IsFailure) == CountOf(p, IsFailure) + (if IsFailure(e) then 1 else 0)
    ensures forall ph :: PhaseTotal(p + [e], ph) == PhaseTotal(p, ph) + PhaseOf(e, ph)
  {
    var q := p + [e];
    assert q[..|q| - 1] == p;
  }

  lemma TypeSnoc(p: seq<Entry>, e: Entry, t: ResourceType)
    ensures TypeCount(p + [e], t) == TypeCount(p, t) + (if GetResourceType(e.mimeType) == t then 1 else 0)
    ensures TypeSize(p + [e], t) == TypeSize(p, t) + (if GetResourceType(e.mimeType) == t then SizeOf(e) else 0)
  {
    var q := p + [e];
    assert q[..|q| - 1] == p;
  }

  /** A type no entry has carries no size either. */
  lemma {:induction false} TypeSizeWithoutCount(p: seq<Entry>, t: ResourceType)
    ensures TypeCount(p, t) == 0 ==> TypeSize(p, t) == 0
  {
    if p != [] {
      TypeSizeWithoutCount(p[..|p| - 1], t);
    }
  }

  lemma TypeBucketSnoc(p: seq<Entry>, e: Entry, t: ResourceType)
    ensures TypeBucket(p + [e], t) ==
      if GetResourceType(e.mimeType) == t then Some(TypeStat(TypeCount(p, t) + 1, TypeSize(p, t) + SizeOf(e)))
      else TypeBucket(p, t)
  {
    TypeSnoc(p, e, t);
  }

  /** The bucket of the new entry's type gains that entry, starting from zero when it had none. */
  lemma TypeBucketOfEntry(types: Dict<ResourceType, TypeStat>, p: seq<Entry>, e: Entry)
    requires Lookup(types, GetResourceType(e.mimeType)) == TypeBucket(p, GetResourceType(e.mimeType))
    ensures TypeBucket(p + [e], GetResourceType(e.mimeType))
         == Some(match Lookup(types, GetResourceType(e.mimeType))
                 case None => TypeStat(1, SizeOf(e))
                 case Some(b) => TypeStat(b.count + 1, b.size + SizeOf(e)))
  {
    var t0 := GetResourceType(e.mimeType);
    TypeBucketSnoc(p, e, t0);
    assert TypeBucket(p + [e], t0) == Some(TypeStat(TypeCount(p, t0) + 1, TypeSize(p, t0) + SizeOf(e)));
    match Lookup(types, t0) {
      case None =>
        TypeSizeWithoutCount(p, t0);
        assert TypeCount(p, t0) == 0 && TypeSize(p, t0) == 0;
      case Some(b) =>
        assert b == TypeStat(TypeCount(p, t0), TypeSize(p, t0));
    }
  }

  /**
   * Any dictionary that differs from an exact type table only by the new entry's bucket grown as
   * `AddToTypeBucket` grows it is the exact type table one entry later.
   */
  lemma TypeTableAfter(types: Dict<ResourceType, TypeStat>, r: Dict<ResourceType, TypeStat>, p: seq<Entry>, e: Entry)
    requires TypeTable(types, p)
    requires DistinctKeys(r)
    requires forall u :: u != GetResourceType(e.mimeType) ==> Lookup(r, u) == Lookup(types, u)
    requires Lookup(r, GetResourceType(e.mimeType))
          == Some(match Lookup(types, GetResourceType(e.mimeType))
                  case None => TypeStat(1, SizeOf(e))
                  case Some(b) => TypeStat(b.count + 1, b.size + SizeOf(e)))
    requires SumBy(r, TypeStatCount) == SumBy(types, TypeStatCount) + 1
    requires SumBy(r, TypeStatSize) == SumBy(types, TypeStatSize) + SizeOf(e)
    ensures TypeTable(r, p + [e])
  {
    var t0 := GetResourceType(e.mimeType);
    TypeBucketOfEntry(types, p, e);
    forall t ensures Lookup(r, t) == TypeBucket(p + [e], t) {
      if t != t0 {
        TypeBucketSnoc(p, e, t);
      }
    }
    AggregatesSnoc(p, e);
  }

  lemma StatusCountSnoc(p: seq<Entry>, e: Entry, s: int)
    ensures StatusCount(p + [e], s) == StatusCount(p, s) + (if e.status == s then 1 else 0)
  {
    var q := p + [e];
    assert q[..|q| - 1] == p;
  }

  /** The counter of the new entry's status gains that entry, starting from zero when it had none. */
  lemma StatusBucketOfEntry(codes: Dict<int, nat>, p: seq<Entry>, e: Entry)
    requires Lookup(codes, e.status) == StatusBucket(p, e.status)
    ensures StatusBucket(p + [e], e.status) == Some(Lookup(codes, e.status).GetOr(0) + 1)
  {
    StatusCountSnoc(p, e, e.status);
    match Lookup(codes, e.status) {
      case None =>
      case Some(n) =>
    }
  }

  /** The status-code counterpart of `TypeTableAfter`. */
  lemma StatusTableAfter(codes: Dict<int, nat>, r: Dict<int, nat>, p: seq<Entry>, e: Entry)
    requires StatusTable(codes, p)
    requires DistinctKeys(r)
    requires forall s :: s != e.status ==> Lookup(r, s) == Lookup(codes, s)
    requires Lookup(r, e.status) == Some(Lookup(codes, e.status).GetOr(0) + 1)
    requires SumBy(r, NatValue) == SumBy(codes, NatValue) + 1
    ensures StatusTable(r, p + [e])
  {
    StatusBucketOfEntry(codes, p, e);
    forall s ensures Lookup(r, s) == StatusBucket(p + [e], s) {
      if s != e.status {
        StatusCountSnoc(p, e, s);
        assert Lookup(codes, s) == StatusBucket(p, s);
      }
    }
  }

  lemma HostSnoc(p: seq<Entry>, e: Entry, hostOf: string -> Option<string>, h: string)
    ensures HostCount(p + [e], hostOf, h) == HostCount(p, hostOf, h) + (if hostOf(e.url) == Some(h) then 1 else 0)
    ensures HostSize(p + [e], hostOf, h) == HostSize(p, hostOf, h) + (if hostOf(e.url) == Some(h) then SizeOf(e) else 0)
    ensures HostTime(p + [e], hostOf, h) == HostTime(p, hostOf, h) + (if hostOf(e.url) == Some(h) then TimeOf(e) else 0)
    ensures ParsedCount(p + [e], hostOf) == ParsedCount(p, hostOf) + (if hostOf(e.url).Some? then 1 else 0)
  {
    var q := p + [e];
    assert q[..|q| - 1] == p;
  }

  /** A host no entry resolves to carries no size and no time either. */
  lemma {:induction false} HostTotalsWithoutCount(p: seq<Entry>, hostOf: string -> Option<string>, h: string)
    ensures HostCount(p, hostOf, h) == 0 ==> HostSize(p, hostOf, h) == 0 && HostTime(p, hostOf, h) == 0
  {
    if p != [] {
      HostTotalsWithoutCount(p[..|p| - 1], hostOf, h);
    }
  }

  lemma DomainBucketSnoc(p: seq<Entry>, e: Entry, hostOf: string -> Option<string>, h: string)
    ensures DomainBucket(p + [e], hostOf, h) ==
      if hostOf(e.url) == Some(h)
      then Some(DomainStat(HostCount(p, hostOf, h) + 1, HostSize(p, hostOf, h) + SizeOf(e), HostTime(p, hostOf, h) + TimeOf(e)))
      else DomainBucket(p, hostOf, h)
  {
    HostSnoc(p, e, hostOf, h);
  }

  /** The bucket of the new entry's host gains that entry, starting from zero when it had none. */
  lemma DomainBucketOfEntry(domains: Dict<string, DomainStat>, p: seq<Entry>, e: Entry, hostOf: string -> Option<string>, h0: string)
    requires hostOf(e.url) == Some(h0)
    requires Lookup(domains, h0) == DomainBucket(p, hostOf, h0)
    ensures DomainBucket(p + [e], hostOf, h0)
         == Some(match Lookup(domains, h0)
                 case None => DomainStat(1, SizeOf(e), TimeOf(e))
                 case Some(b) => DomainStat(b.count + 1, b.size + SizeOf(e), b.time + TimeOf(e)))
  {
    DomainBucketSnoc(p, e, hostOf, h0);
    match Lookup(domains, h0) {
      case None =>
        HostTotalsWithoutCount(p, hostOf, h0);
        assert HostCount(p, hostOf, h0) == 0 && HostSize(p, hostOf, h0) == 0 && HostTime(p, hostOf, h0) == 0;
      case Some(b) =>
        assert b == DomainStat(HostCount(p, hostOf, h0), HostSize(p, hostOf, h0), HostTime(p, hostOf, h0));
    }
  }

  /** The domain counterpart of `TypeTableAfter`, for an entry whose URL has the hostname `h0`. */
  lemma DomainTableAfter(domains: Dict<string, DomainStat>, r: Dict<string, DomainStat>, p: seq<Entry>, e: Entry,
                         hostOf: string -> Option<string>, h0: string)
    requires DomainTable(domains, p, hostOf)
    requires hostOf(e.url) == Some(h0)
    requires DistinctKeys(r)
    requires forall h :: h != h0 ==> Lookup(r, h) == Lookup(domains, h)
    requires Lookup(r, h0) == Some(match Lookup(domains, h0)
                                   case None => DomainStat(1, SizeOf(e), TimeOf(e))
                                   case Some(b) => DomainStat(b.count + 1, b.size + SizeOf(e), b.time + TimeOf(e)))
    requires SumBy(r, DomainStatCount) == SumBy(domains, DomainStatCount) + 1
    ensures DomainTable(r, p + [e], hostOf)
  {
    HostSnoc(p, e, hostOf, h0);
    DomainBucketOfEntry(domains, p, e, hostOf, h0);
    forall h ensures Lookup(r, h) == DomainBucket(p + [e], hostOf, h) {
      if h != h0 {
        DomainBucketSnoc(p, e, hostOf, h);
      }
    }
  }

  /** A URL without a hostname leaves every domain bucket as it was. */
  lemma DomainTableUnparsed(domains: Dict<string, DomainStat>, p: seq<Entry>, e: Entry, hostOf: string -> Option<string>)
    requires DomainTable(domains, p, hostOf)
    requires hostOf(e.url).None?
    ensures DomainTable(domains, p + [e], hostOf)
  {
    HostSnoc(p, e, hostOf, "");
    forall h ensures Lookup(domains, h) == DomainBucket(p + [e], hostOf, h) {
      DomainBucketSnoc(p, e, hostOf, h);
    }
  }

  // ---------------------------------------------------------------------------------------------
  // The bounded top-5 arrays

  const HeapSize := 5

  const UrlDisplayLength := 60

  /** The record kept for the slowest and largest lists: `url.substring(0, 60)`, time, size and status. */
  datatype Record = Record(url: string, time: int, size: int, status: int)

  function RecordTime(r: Record): int { r.time }

  function RecordSize(r: Record): int { r.size }

  function ToRecord(e: Entry): (r: Record)
    ensures |r.url| == Min(UrlDisplayLength, |e.url|) && r.url <= e.url
    ensures r.time == TimeOf(e) && r.size == SizeOf(e) && r.status == e.status
  {
    Record(e.url[..Min(UrlDisplayLength, |e.url|)], TimeOf(e), SizeOf(e), e.status)
  }

  /** The records of all entries, in order: the candidates of both lists. */
  function Records(p: seq<Entry>): (rs: seq<Record>)
    ensures |rs| == |p|
    ensures forall j :: 0 <= j < |p| ==> rs[j] == ToRecord(p[j])
  {
    if p == [] then [] else Records(p[..|p| - 1]) + [ToRecord(p[|p| - 1])]
  }

  /**
   * The array after one candidate, stated as a sorted insertion: while there are fewer than five
   * members the candidate joins; once full it joins only with a key strictly above the minimum,
   * which it displaces; otherwise nothing changes.
   */
  function Offered(heap: seq<Record>, rec: Record, key: Record -> int): seq<Record>
    requires |heap| <= HeapSize
  {
    if |heap| < HeapSize then Insert(heap, rec, key)
    else if key(rec) > key(heap[0]) then Insert(heap[1..], rec, key)
    else heap
  }

  /** One admission step: push, stable sort ascending, and shift the minimum off when over five. */
  method Offer(heap: seq<Record>, rec: Record, key: Record -> int) returns (h: seq<Record>)
    requires |heap| <= HeapSize && SortedBy(heap, key)
    ensures h == Offered(heap, rec, key)
  {
    h := heap;
    if |h| < HeapSize || key(rec) > key(h[0]) {
      h := h + [rec];
      assert h[..|h| - 1] == heap;
      h := SortBy(h, key);
      SortBySorted(heap, key);
      if |h| > HeapSize {
        h := h[1..];
      }
    }
  }

  /**
   * The array after the entries `p`, ascending: `min(5, |p|)` of their records, all of them while
   * there are at most five, and no record left out has a key above the minimum kept. Records are
   * counted with multiplicity: a second copy of a kept record that was discarded is left out too.
   */
  ghost predicate TopSoFar(h: seq<Record>, p: seq<Entry>, key: Record -> int) {
    && |h| == Min(HeapSize, |p|)
    && SortedBy(h, key)
    && multiset(h) <= multiset(Records(p))
    && (|p| <= HeapSize ==> multiset(h) == multiset(Records(p)))
    && forall r :: multiset(h)[r] < multiset(Records(p))[r] ==> key(r) <= key(h[0])
  }

  /** Membership in the entries' records, position by position. */
  lemma RecordsSnoc(p: seq<Entry>, e: Entry)
    ensures Records(p + [e]) == Records(p) + [ToRecord(e)]
  {
    var q := p + [e];
    assert q[..|q| - 1] == p;
  }

  lemma OfferKeepsTop(h: seq<Record>, p: seq<Entry>, e: Entry, key: Record -> int)
    requires TopSoFar(h, p, key)
    ensures TopSoFar(Offered(h, ToRecord(e), key), p + [e], key)
  {
    RecordsSnoc(p, e);
    if |h| < HeapSize {
      OfferWhileFilling(h, p, e, key);
    } else if key(ToRecord(e)) > key(h[0]) {
      OfferAdmits(h, p, e, key);
    } else {
      OfferRejects(h, p, e, key);
    }
  }

  /** Fewer than five seen: every record so far is kept. */
  lemma OfferWhileFilling(h: seq<Record>, p: seq<Entry>, e: Entry, key: Record -> int)
    requires TopSoFar(h, p, key) && |h| < HeapSize
    requires Records(p + [e]) == Records(p) + [ToRecord(e)]
    ensures TopSoFar(Offered(h, ToRecord(e), key), p + [e], key)
  {
    var rec := ToRecord(e);
    var h' := Insert(h, rec, key);
    var q := p + [e];
    InsertKeepsSorted(h, rec, key);
    assert multiset(h') == multiset(Records(q));
    assert multiset(Records(q)) == multiset(h');
  }

  /** Dropping the minimum of a sorted array and inserting a larger candidate. */
  lemma InsertAfterMinimum(h: seq<Record>, rec: Record, key: Record -> int)
    requires SortedBy(h, key) && |h| > 0
    ensures SortedBy(Insert(h[1..], rec, key), key)
    ensures multiset(Insert(h[1..], rec, key)) + multiset{h[0]} == multiset(h) + multiset{rec}
    ensures forall y :: y in Insert(h[1..], rec, key) <==> y in h[1..] || y == rec
  {
    assert h == [h[0]] + h[1..];
    InsertKeepsSorted(h[1..], rec, key);
    InsertMembers(h[1..], rec, key);
  }

  /** The new minimum is no smaller than the one that was dropped. */
  lemma MinimumDoesNotDrop(h: seq<Record>, rec: Record, key: Record -> int)
    requires SortedBy(h, key) && |h| > 0 && key(rec) > key(h[0])
    ensures key(h[0]) <= key(Insert(h[1..], rec, key)[0])
  {
    var rest := h[1..];
    var first := Insert(rest, rec, key)[0];
    InsertMembers(rest, rec, key);
    if first != rec {
      var i :| 0 <= i < |rest| && rest[i] == first;
      assert h[i + 1] == first;
    }
  }

  lemma ExchangeStaysWithin<T>(after: multiset<T>, before: multiset<T>, pool: multiset<T>, out: T, incoming: T)
    requires after + multiset{out} == before + multiset{incoming} && before <= pool
    ensures after <= pool + multiset{incoming}
  {
    forall z ensures after[z] <= (pool + multiset{incoming})[z] {
      assert (after + multiset{out})[z] == (before + multiset{incoming})[z];
    }
  }

  /** Full, and the candidate beats the minimum: the minimum goes, the candidate comes in. */
  lemma OfferAdmits(h: seq<Record>, p: seq<Entry>, e: Entry, key: Record -> int)
    requires TopSoFar(h, p, key) && |h| == HeapSize && key(ToRecord(e)) > key(h[0])
    requires Records(p + [e]) == Records(p) + [ToRecord(e)]
    ensures TopSoFar(Offered(h, ToRecord(e), key), p + [e], key)
  {
    var rec := ToRecord(e);
    var h' := Insert(h[1..], rec, key);
    var q := p + [e];
    assert Offered(h, rec, key) == h';
    InsertAfterMinimum(h, rec, key);
    MinimumDoesNotDrop(h, rec, key);
    assert |h'| == Min(HeapSize, |q|);
    assert SortedBy(h', key);
    assert multiset(Records(q)) == multiset(Records(p)) + multiset{rec};
    ExchangeStaysWithin(multiset(h'), multiset(h), multiset(Records(p)), h[0], rec);
    LeftOutStayBelow(h, h', multiset(Records(p)), rec, key);
    assert multiset(Records(q)) == multiset(Records(p)) + multiset{rec};
  }

  /**
   * After the exchange, a record outside the array is either the displaced minimum or was already
   * outside it, and neither has a key above the new minimum.
   */
  lemma LeftOutStayBelow(h: seq<Record>, h': seq<Record>, pool: multiset<Record>, rec: Record, key: Record -> int)
    requires |h| > 0 && |h'| > 0 && key(h[0]) <= key(h'[0])
    requires multiset(h) <= pool
    requires forall r :: multiset(h)[r] < pool[r] ==> key(r) <= key(h[0])
    requires multiset(h') + multiset{h[0]} == multiset(h) + multiset{rec}
    ensures forall r :: multiset(h')[r] < (pool + multiset{rec})[r] ==> key(r) <= key(h'[0])
  {
    forall r | multiset(h')[r] < (pool + multiset{rec})[r] ensures key(r) <= key(h'[0]) {
      assert (multiset(h') + multiset{h[0]})[r] == (multiset(h) + multiset{rec})[r];
    }
  }

  /** Full, and the candidate does not beat the minimum: nothing changes. */
  lemma OfferRejects(h: seq<Record>, p: seq<Entry>, e: Entry, key: Record -> int)
    requires TopSoFar(h, p, key) && |h| == HeapSize && key(ToRecord(e)) <= key(h[0])
    requires Records(p + [e]) == Records(p) + [ToRecord(e)]
    ensures TopSoFar(Offered(h, ToRecord(e), key), p + [e], key)
  {
    var q := p + [e];
    var rec := ToRecord(e);
    assert multiset(Records(q)) == multiset(Records(p)) + multiset{rec};
    forall r | multiset(h)[r] < multiset(Records(q))[r] ensures key(r) <= key(h[0]) {
      assert multiset(Records(q))[r] == multiset(Records(p))[r] + multiset{rec}[r];
    }
  }

  /**
   * The published list: exactly `min(5, n)` of the entries' records, in non-increasing order of the
   * key, and every entry whose record was not kept (counting repeated records with multiplicity)
   * has a key no greater than any record kept.
   */
  ghost predicate TopK(r: seq<Record>, es: seq<Entry>, key: Record -> int) {
    && |r| == Min(HeapSize, |es|)
    && (forall a, b :: 0 <= a < b < |r| ==> key(r[a]) >= key(r[b]))
    && multiset(r) <= multiset(Records(es))
    && (forall x, k :: multiset(r)[x] < multiset(Records(es))[x] && 0 <= k < |r| ==> key(x) <= key(r[k]))
  }

  /** Reversing the ascending array publishes it highest first. */
  lemma TopSoFarReversed(h: seq<Record>, es: seq<Entry>, key: Record -> int)
    requires TopSoFar(h, es, key)
    ensures TopK(Reversed(h), es, key)
  {
    ReversedSameElements(h);
    ReversedDescends(h, key);
    LeftOutBelowReversed(h, multiset(Records(es)), key);
  }

  /** A record left out has a key no greater than the minimum kept, so none greater than any record kept. */
  lemma LeftOutBelowReversed(h: seq<Record>, pool: multiset<Record>, key: Record -> int)
    requires SortedBy(h, key)
    requires |h| > 0 ==> forall x :: multiset(h)[x] < pool[x] ==> key(x) <= key(h[0])
    ensures forall x, k :: multiset(Reversed(h))[x] < pool[x] && 0 <= k < |h| ==> key(x) <= key(Reversed(h)[k])
  {
    var r := Reversed(h);
    ReversedSameElements(h);
    forall x, k | multiset(r)[x] < pool[x] && 0 <= k < |h| ensures key(x) <= key(r[k]) {
      assert r[k] == h[|h| - 1 - k];
    }
  }

  // ---------------------------------------------------------------------------------------------
  // The pass

  datatype PhaseTotals = PhaseTotals(blocked: int, dns: int, connect: int, send: int, wait: int, receive: int)

  function PhaseField(t: PhaseTotals, ph: Phase): int {
    match ph
    case Blocked => t.blocked
    case Dns => t.dns
    case Connect => t.connect
    case Send => t.send
    case Wait => t.wait
    case Receive => t.receive
  }

  datatype Metrics = Metrics(
    totalRequests: nat, totalSize: int, totalTime: int, successCount: nat, failedCount: nat,
    resourceTypes: Dict<ResourceType, TypeStat>, statusCodes: Dict<int, nat>, timings: PhaseTotals,
    slowestRequests: seq<Record>, largestResources: seq<Record>, domainStats: Dict<string, DomainStat>)

  /** `metrics.timings[phase] += (entry.timings?.[phase] || 0)` for the six phases. */
  function AddPhases(t: PhaseTotals, e: Entry): (r: PhaseTotals)
    ensures forall ph :: PhaseField(r, ph) == PhaseField(t, ph) + PhaseOf(e, ph)
  {
    PhaseTotals(
      t.blocked + PhaseOf(e, Blocked), t.dns + PhaseOf(e, Dns), t.connect + PhaseOf(e, Connect),
      t.send + PhaseOf(e, Send), t.wait + PhaseOf(e, Wait), t.receive + PhaseOf(e, Receive))
  }

  /** What the pass has accumulated part-way: the metrics object before the heaps are reversed. */
  datatype Tallies = Tallies(
    totalSize: int, totalTime: int, successCount: nat, failedCount: nat,
    resourceTypes: Dict<ResourceType, TypeStat>, statusCodes: Dict<int, nat>, timings: PhaseTotals,
    domainStats: Dict<string, DomainStat>, slowestHeap: seq<Record>, largestHeap: seq<Record>)

  const NoTallies := Tallies(0, 0, 0, 0, [], [], PhaseTotals(0, 0, 0, 0, 0, 0), [], [], [])

  /** The counters and tables after the entries `p` agree with the reference aggregates over `p`. */
  ghost predicate Counted(acc: Tallies, p: seq<Entry>, hostOf: string -> Option<string>) {
    && acc.totalSize == Total(p, SizeOf)
    && acc.totalTime == Total(p, TimeOf)
    && acc.successCount == CountOf(p, IsSuccess)
    && acc.failedCount == CountOf(p, IsFailure)
    && TypeTable(acc.resourceTypes, p)
    && StatusTable(acc.statusCodes, p)
    && (forall ph :: PhaseField(acc.timings, ph) == PhaseTotal(p, ph))
    && DomainTable(acc.domainStats, p, hostOf)
  }

  /** Both arrays hold the top records of `p`: by time and by size. */
  ghost predicate Ranked(slowest: seq<Record>, largest: seq<Record>, p: seq<Entry>) {
    TopSoFar(slowest, p, RecordTime) && TopSoFar(largest, p, RecordSize)
  }

  /** The tallies after the entries `p` agree with the reference aggregates over `p`. */
  ghost predicate Summarizes(acc: Tallies, p: seq<Entry>, hostOf: string -> Option<string>) {
    Counted(acc, p, hostOf) && Ranked(acc.slowestHeap, acc.largestHeap, p)
  }

  /** The resource-type part of the callback: one entry joins the bucket of its type. */
  method TallyType(types: Dict<ResourceType, TypeStat>, entry: Entry, ghost p: seq<Entry>)
    returns (types': Dict<ResourceType, TypeStat>)
    requires TypeTable(types, p)
    ensures TypeTable(types', p + [entry])
  {
    types' := AddToTypeBucket(types, GetResourceType(entry.mimeType), SizeOf(entry));
    TypeTableAfter(types, types', p, entry);
  }

  /** The status-code part of the callback: one entry increments the counter of its status. */
  method TallyStatus(codes: Dict<int, nat>, entry: Entry, ghost p: seq<Entry>) returns (codes': Dict<int, nat>)
    requires StatusTable(codes, p)
    ensures StatusTable(codes', p + [entry])
  {
    codes' := AddToStatusBucket(codes, entry.status);
    StatusTableAfter(codes, codes', p, entry);
  }

  /** The domain part of the callback: an entry whose URL parses joins the bucket of its hostname. */
  method TallyDomain(domains: Dict<string, DomainStat>, entry: Entry, hostOf: string -> Option<string>, ghost p: seq<Entry>)
    returns (domains': Dict<string, DomainStat>)
    requires DomainTable(domains, p, hostOf)
    ensures DomainTable(domains', p + [entry], hostOf)
  {
    match hostOf(entry.url) {
      case Some(domain) =>
        domains' := AddToDomainBucket(domains, domain, SizeOf(entry), TimeOf(entry));
        DomainTableAfter(domains, domains', p, entry, hostOf, domain);
      case None =>
        // `new URL` threw: the entry is skipped
        domains' := domains;
        DomainTableUnparsed(domains, p, entry, hostOf);
    }
  }

  /** The ranking part of the callback: offer the entry's record to both top-5 arrays. */
  method RankEntry(slowest: seq<Record>, largest: seq<Record>, entry: Entry, ghost p: seq<Entry>)
    returns (slowest': seq<Record>, largest': seq<Record>)
    requires Ranked(slowest, largest, p)
    ensures Ranked(slowest', largest', p + [entry])
  {
    var record := ToRecord(entry);
    slowest' := Offer(slowest, record, RecordTime);
    OfferKeepsTop(slowest, p, entry, RecordTime);
    largest' := Offer(largest, record, RecordSize);
    OfferKeepsTop(largest, p, entry, RecordSize);
  }

  /** The counting part of the callback: totals, status classes, phases and the three tables. */
  method Count(acc: Tallies, entry: Entry, hostOf: string -> Option<string>, ghost p: seq<Entry>) returns (next: Tallies)
    requires Counted(acc, p, hostOf)
    ensures Counted(next, p + [entry], hostOf)
    ensures next.slowestHeap == acc.slowestHeap && next.largestHeap == acc.largestHeap
  {
    var totalSize := acc.totalSize + SizeOf(entry);
    var totalTime := acc.totalTime + TimeOf(entry);
    var successCount, failedCount := acc.successCount, acc.failedCount;
    if entry.status >= 400 {
      failedCount := failedCount + 1;
    } else if entry.status >= 200 && entry.status < 300 {
      successCount := successCount + 1;
    }
    var timings := AddPhases(acc.timings, entry);
    AggregatesSnoc(p, entry);
    var resourceTypes := TallyType(acc.resourceTypes, entry, p);
    var statusCodes := TallyStatus(acc.statusCodes, entry, p);
    var domainStats := TallyDomain(acc.domainStats, entry, hostOf, p);
    next := Tallies(totalSize, totalTime, successCount, failedCount, resourceTypes, statusCodes, timings,
                    domainStats, acc.slowestHeap, acc.largestHeap);
  }

  /** The body of the `forEach` callback: fold one entry into the tallies. */
  method Visit(acc: Tallies, entry: Entry, hostOf: string -> Option<string>, ghost p: seq<Entry>) returns (next: Tallies)
    requires Summarizes(acc, p, hostOf)
    ensures Summarizes(next, p + [entry], hostOf)
  {
    var counted := Count(acc, entry, hostOf, p);
    var slowestHeap, largestHeap := RankEntry(acc.slowestHeap, acc.largestHeap, entry, p);
    next := counted.(slowestHeap := slowestHeap, largestHeap := largestHeap);
  }

  /** No entries seen: every tally is zero and every table and array empty. */
  lemma SummarizesNothing(hostOf: string -> Option<string>)
    ensures Summarizes(NoTallies, [], hostOf)
  {
    assert Records([]) == [];
  }

  /** The metrics the pass returns: the heaps come out reversed, largest first. */
  function Finish(acc: Tallies, requests: nat): (m: Metrics)
    ensures |m.slowestRequests| == |acc.slowestHeap| && multiset(m.slowestRequests) == multiset(acc.slowestHeap)
    ensures |m.largestResources| == |acc.largestHeap| && multiset(m.largestResources) == multiset(acc.largestHeap)
  {
    ReversedSameElements(acc.slowestHeap);
    ReversedSameElements(acc.largestHeap);
    Metrics(requests, acc.totalSize, acc.totalTime, acc.successCount, acc.failedCount,
            acc.resourceTypes, acc.statusCodes, acc.timings,
            Reversed(acc.slowestHeap), Reversed(acc.largestHeap), acc.domainStats)
  }

  /** What the finished metrics say about all the entries. */
  ghost predicate Describes(m: Metrics, entries: seq<Entry>, hostOf: string -> Option<string>) {
    && m.totalRequests == |entries|
    && m.totalSize == Total(entries, SizeOf) && m.totalTime == Total(entries, TimeOf)
    && m.successCount == CountOf(entries, IsSuccess) && m.failedCount == CountOf(entries, IsFailure)
    && TypeTable(m.resourceTypes, entries)
    && StatusTable(m.statusCodes, entries)
    && (forall ph :: PhaseField(m.timings, ph) == PhaseTotal(entries, ph))
    && DomainTable(m.domainStats, entries, hostOf)
    && TopK(m.slowestRequests, entries, RecordTime)
    && TopK(m.largestResources, entries, RecordSize)
  }

  lemma FinishDescribes(acc: Tallies, entries: seq<Entry>, hostOf: string -> Option<string>)
    requires Summarizes(acc, entries, hostOf)
    ensures Describes(Finish(acc, |entries|), entries, hostOf)
  {
    TopSoFarReversed(acc.slowestHeap, entries, RecordTime);
    TopSoFarReversed(acc.largestHeap, entries, RecordSize);
  }

  /** The entries seen after one more step of the `forEach`. */
  lemma PrefixGrows(entries: seq<Entry>, i: nat)
    requires i < |entries|
    ensures entries[..i + 1] == entries[..i] + [entries[i]]
  {
  }

  /** The `forEach` over the entries: the tallies after every entry, in order. */
  method TallyAll(entries: seq<Entry>, hostOf: string -> Option<string>) returns (acc: Tallies)
    ensures Summarizes(acc, entries, hostOf)
  {
    acc := NoTallies;
    SummarizesNothing(hostOf);
    var i := 0;
    while i < |entries|
      invariant 0 <= i <= |entries|
      invariant Summarizes(acc, entries[..i], hostOf)
    {
      PrefixGrows(entries, i);
      acc := Visit(acc, entries[i], hostOf, entries[..i]);
      i := i + 1;
    }
    assert entries[..i] == entries;
  }

  /**
   * `calculateMetrics(entries)`: request and byte totals, success and failure counts, the resource
   * type, status code and domain tables, the phase totals, and the five slowest and five largest
   * requests. The hostname of a URL (`new URL(url).hostname`, which throws on an unparsable URL) is
   * the parameter `hostOf`, `None` standing for the exception.
   */
  method CalculateMetrics(entries: seq<Entry>, hostOf: string -> Option<string>) returns (m: Metrics)
    ensures Describes(m, entries, hostOf)
  {
    var acc := TallyAll(entries, hostOf);
    FinishDescribes(acc, entries, hostOf);
    m := Finish(acc, |entries|);
  }

  /**
   * Conservation in the finished metrics: every request is in one resource-type bucket and one
   * status bucket, the type sizes add up to the total size, the domain buckets hold at most every
   * request, and success and failure together never exceed the requests.
   */
  lemma MetricsConserveRequests(m: Metrics, entries: seq<Entry>, hostOf: string -> Option<string>)
    requires Describes(m, entries, hostOf)
    ensures SumBy(m.resourceTypes, TypeStatCount) == m.totalRequests
    ensures SumBy(m.resourceTypes, TypeStatSize) == m.totalSize
    ensures SumBy(m.statusCodes, NatValue) == m.totalRequests
    ensures SumBy(m.domainStats, DomainStatCount) <= m.totalRequests
    ensures m.successCount + m.failedCount <= m.totalRequests
  {
    SuccessFailureBound(entries);
  }

  // ---------------------------------------------------------------------------------------------
  // The busiest domains shown by the report

  function ByCountDescending(d: (string, DomainStat)): int { -(d.1.count as int) }

  /** `Object.entries(domainStats).sort((a, b) => b[1].count - a[1].count).slice(0, 5)`. */
  function TopDomains(domains: Dict<string, DomainStat>): (top: seq<(string, DomainStat)>)
    ensures |top| <= HeapSize
  {
    var sorted := SortBy(domains, ByCountDescending);
    sorted[..Min(HeapSize, |sorted|)]
  }

  /** At most five domains, busiest first, each taken from the dictionary. */
  lemma TopDomainsRanked(domains: Dict<string, DomainStat>)
    ensures |TopDomains(domains)| == Min(HeapSize, |domains|)
    ensures forall a, b :: 0 <= a < b < |TopDomains(domains)| ==>
      TopDomains(domains)[a].1.count >= TopDomains(domains)[b].1.count
    ensures multiset(TopDomains(domains)) <= multiset(domains)
  {
    var sorted := SortBy(domains, ByCountDescending);
    var top := TopDomains(domains);
    assert sorted == top + sorted[|top|..];
    forall a, b | 0 <= a < b < |top| ensures top[a].1.count >= top[b].1.count {
      assert ByCountDescending(sorted[a]) <= ByCountDescending(sorted[b]);
    }
  }

  /** No domain left out of the report is busier than one shown. */
  lemma TopDomainsBusiest(domains: Dict<string, DomainStat>)
    ensures forall d, k :: d in domains && d !in TopDomains(domains) && 0 <= k < |TopDomains(domains)| ==>
      d.1.count <= TopDomains(domains)[k].1.count
  {
    var sorted := SortBy(domains, ByCountDescending);
    var top := TopDomains(domains);
    SortedPrefixHasLeastKeys(sorted, |top|, ByCountDescending);
    forall d, k | d in domains && d !in top && 0 <= k < |top| ensures d.1.count <= top[k].1.count {
      assert d in multiset(domains);
      assert ByCountDescending(sorted[k]) <= ByCountDescending(d);
    }
  }
}
