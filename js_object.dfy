/**
 * Property lookup on plain JavaScript objects. `obj[name]` on an object that has no own property
 * `name` still yields a value when `name` is one of the properties every object inherits from
 * `Object.prototype` (section 20.1.3 of ECMAScript, with the legacy accessors of its Annex B.2.2),
 * and each of those values is truthy.
 */
module JsObject {

  const InheritedProperties: set<string> := {
    "constructor", "hasOwnProperty", "isPrototypeOf", "propertyIsEnumerable", "toLocaleString",
    "toString", "valueOf", "__proto__", "__defineGetter__", "__defineSetter__", "__lookupGetter__",
    "__lookupSetter__"
  }
}
