/** String helpers shared by the handlers: ASCII lower-casing, substring search,
    joining, and the textual forms that Python's f-strings produce. */
module Text {
  import opened Wrappers

  predicate IsUpper(c: char) {
    'A' <= c <= 'Z'
  }

  /** `str.lower()` restricted to ASCII letters. */
  function LowerChar(c: char): (d: char)
    ensures !IsUpper(d)
    ensures IsUpper(c) ==> d as int == c as int + 32
    ensures !IsUpper(c) ==> d == c
  {
    if IsUpper(c) then (c as int + 32) as char else c
  }

  function Lower(s: string): (r: string)
    ensures |r| == |s|
    ensures forall i :: 0 <= i < |s| ==> r[i] == LowerChar(s[i])
  {
    if |s| == 0 then [] else [LowerChar(s[0])] + Lower(s[1..])
  }

  /** Text without upper-case letters is its own lower-case form. */
  lemma LowerUnchanged(s: string)
    requires forall i :: 0 <= i < |s| ==> !IsUpper(s[i])
    ensures Lower(s) == s
  {
  }

  predicate IsPrefix(p: string, s: string) {
    |p| <= |s| && s[..|p|] == p
  }

  /** Python's `sub in s` for strings. */
  predicate Contains(s: string, sub: string)
    decreases |s|
  {
    IsPrefix(sub, s) || (|s| > 0 && Contains(s[1..], sub))
  }

  /** `sub in s` holds exactly when `sub` occurs at some position of `s`. */
  lemma {:induction false} ContainsIff(s: string, sub: string)
    ensures Contains(s, sub) <==> exists i :: 0 <= i <= |s| && IsPrefix(sub, s[i..])
    decreases |s|
  {
    if |s| > 0 {
      ContainsIff(s[1..], sub);
      assert s[0..] == s;
      if Contains(s, sub) && !IsPrefix(sub, s) {
        var i :| 0 <= i <= |s| - 1 && IsPrefix(sub, s[1..][i..]);
        assert s[1..][i..] == s[i + 1..];
      }
      if exists i :: 0 <= i <= |s| && IsPrefix(sub, s[i..]) {
        var i :| 0 <= i <= |s| && IsPrefix(sub, s[i..]);
        if i > 0 {
          assert s[1..][i - 1..] == s[i..];
        }
      }
    } else {
      assert s[0..] == s;
    }
  }

  /** A witness position is enough to establish `sub in s`. */
  lemma ContainsAt(s: string, sub: string, i: nat)
    requires i <= |s| && IsPrefix(sub, s[i..])
    ensures Contains(s, sub)
  {
    ContainsIff(s, sub);
  }

  /** A string shorter than `sub` cannot contain it. */
  lemma {:induction false} ContainsNeedsRoom(s: string, sub: string)
    requires |s| < |sub|
    ensures !Contains(s, sub)
    decreases |s|
  {
    if |s| > 0 {
      ContainsNeedsRoom(s[1..], sub);
    }
  }

  /** `sep.join(parts)`. */
  function Join(sep: string, parts: seq<string>): string {
    if |parts| == 0 then ""
    else if |parts| == 1 then parts[0]
    else parts[0] + sep + Join(sep, parts[1..])
  }

  /** f-string rendering of a value that may be `None`. */
  function OptText(o: Option<string>): string {
    match o
    case Some(s) => s
    case None => "None"
  }

  /** f-string rendering of a list of strings: `['a', 'b']`. */
  function ListRepr(items: seq<string>): string {
    "[" + Join(", ", Quoted(items)) + "]"
  }

  function Quoted(items: seq<string>): (q: seq<string>)
    ensures |q| == |items|
  {
    if |items| == 0 then [] else ["'" + items[0] + "'"] + Quoted(items[1..])
  }

  /** f-string rendering of an optional list of strings. */
  function OptListRepr(o: Option<seq<string>>): string {
    match o
    case Some(items) => ListRepr(items)
    case None => "None"
  }
}
