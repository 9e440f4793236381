/**
 * The few pieces of JavaScript's built-in behaviour the broker relies on:
 * String.prototype.trim, Array.prototype.includes over strings, and
 * property lookup on a plain object, which also finds Object.prototype's members.
 */
module Js {
  import opened Wrappers

  /**
   * The code points String.prototype.trim strips: ECMAScript's WhiteSpace
   * (TAB, VT, FF, ZWNBSP and the Space_Separator category) and LineTerminator
   * (LF, CR, LS, PS) productions.
   */
  predicate IsTrimmable(c: char) {
    || c == '\t' || c == '\U{000B}' || c == '\U{000C}' || c == ' ' || c == '\U{00A0}'
    || c == '\U{FEFF}' || c == '\U{1680}' || ('\U{2000}' <= c <= '\U{200A}')
    || c == '\U{202F}' || c == '\U{205F}' || c == '\U{3000}'
    || c == '\n' || c == '\r' || c == '\U{2028}' || c == '\U{2029}'
  }

  /** A string that trim reduces to the empty string. */
  predicate IsBlank(s: string) {
    forall i :: 0 <= i < |s| ==> IsTrimmable(s[i])
  }

  /** Drops the trimmable prefix: the result is the suffix that starts at the first other character. */
  function TrimStart(s: string): (r: string)
    ensures |r| <= |s| && r == s[|s| - |r|..]
    ensures forall i :: 0 <= i < |s| - |r| ==> IsTrimmable(s[i])
    ensures r == [] || !IsTrimmable(r[0])
  {
    if s != [] && IsTrimmable(s[0]) then
      var r := TrimStart(s[1..]);
      assert forall i :: 1 <= i < |s| ==> s[i] == s[1..][i - 1];
      r
    else s
  }

  /** Drops the trimmable suffix: the result is the prefix that ends at the last other character. */
  function TrimEnd(s: string): (r: string)
    ensures |r| <= |s| && r == s[..|r|]
    ensures forall i :: |r| <= i < |s| ==> IsTrimmable(s[i])
    ensures r == [] || !IsTrimmable(r[|r| - 1])
  {
    if s != [] && IsTrimmable(s[|s| - 1]) then
      var r := TrimEnd(s[..|s| - 1]);
      assert forall i :: 0 <= i < |s| - 1 ==> s[i] == s[..|s| - 1][i];
      r
    else s
  }

  /** String.prototype.trim. */
  function Trim(s: string): string {
    TrimEnd(TrimStart(s))
  }

  /** `s.trim() !== ''` holds exactly when some character of s is not trimmable. */
  lemma TrimEmptyIffBlank(s: string)
    ensures Trim(s) == [] <==> IsBlank(s)
  {
    var t := TrimStart(s);
    var k := |s| - |t|;
    if Trim(s) == [] {
      // TrimEnd leaves t's first character when it is not trimmable, so t is empty.
      assert t == [];
    } else {
      assert t != [] && !IsTrimmable(t[0]);
      assert s[k] == t[0];
    }
  }

  /**
   * Array.prototype.includes on an array of strings: a scan from the first
   * element comparing with SameValueZero, which on strings is equality; an
   * absent value (undefined) equals no string.
   */
  function Includes(list: seq<string>, v: Option<string>): (b: bool)
    ensures b <==> v.Some? && v.value in list
  {
    if list == [] then false
    else if v == Some(list[0]) then true
    else Includes(list[1..], v)
  }

  /** What `obj[key]` yields on an object parsed from JSON or built from `{}`. */
  datatype Lookup<+T> =
    | Own(value: T)   // an own property of the object
    | Inherited       // a member of Object.prototype: a function or an object, never null
    | Undefined

  /** The names of the properties every plain object inherits from Object.prototype. */
  const ObjectPrototypeMembers: set<string> := {
    "constructor", "__proto__", "hasOwnProperty", "isPrototypeOf", "propertyIsEnumerable",
    "toString", "toLocaleString", "valueOf",
    "__defineGetter__", "__defineSetter__", "__lookupGetter__", "__lookupSetter__"
  }

  /** `obj[key]` for a plain object whose own properties are `own`: own first, then the prototype chain. */
  function GetProperty<T>(own: map<string, T>, key: string): (r: Lookup<T>)
    ensures r.Own? <==> key in own
    ensures r.Own? ==> r.value == own[key]
    ensures r.Undefined? <==> key !in own && key !in ObjectPrototypeMembers
  {
    if key in own then Own(own[key])
    else if key in ObjectPrototypeMembers then Inherited
    else Undefined
  }
}
