/** The two JavaScript string built-ins the request handler relies on:
    `String.prototype.split` with a one-character separator, and
    `String.prototype.toLowerCase`, restricted to ASCII letters. */
module JsString {

  /** Index of the first occurrence of `c` in `s`. */
  function FirstIndexOf(s: string, c: char): (i: nat)
    requires c in s
    ensures i < |s| && s[i] == c
    ensures c !in s[..i]
  {
    if s[0] == c then 0
    else
      assert s == [s[0]] + s[1..];
      var j := FirstIndexOf(s[1..], c);
      assert s[..j + 1] == [s[0]] + s[1..][..j];
      j + 1
  }

  /** Glues `parts` back together with `sep` between neighbours (the
      inverse of `Split`, `Array.prototype.join`). */
  function Join(parts: seq<string>, sep: char): (r: string)
    requires |parts| >= 1
    ensures parts[0] <= r
    ensures |parts| == 1 <==> |r| == |parts[0]|
    ensures |parts| > 1 ==> r[|parts[0]|] == sep
  {
    if |parts| == 1 then parts[0] else parts[0] + [sep] + Join(parts[1..], sep)
  }

  /** `s.split(sep)`: the maximal pieces of `s` that do not contain `sep`,
      in order. An empty string splits into one empty piece. */
  function Split(s: string, sep: char): (parts: seq<string>)
    ensures |parts| >= 1
    ensures forall k :: 0 <= k < |parts| ==> sep !in parts[k]
    ensures Join(parts, sep) == s
    decreases |s|
  {
    if sep !in s then [s]
    else
      var i := FirstIndexOf(s, sep);
      var rest := Split(s[i + 1..], sep);
      assert s == s[..i] + [sep] + s[i + 1..];
      [s[..i]] + rest
  }

  /** Whether `c` is an upper-case ASCII letter. */
  predicate IsAsciiUpper(c: char) {
    'A' <= c <= 'Z'
  }

  /** Whether `s` contains no upper-case ASCII letter. */
  predicate NoAsciiUpper(s: string) {
    forall k :: 0 <= k < |s| ==> !IsAsciiUpper(s[k])
  }

  /** `toLowerCase` on one character, for ASCII letters. */
  function LowerChar(c: char): (d: char)
    ensures !IsAsciiUpper(d)
    ensures IsAsciiUpper(c) ==> d as int == c as int + 32
    ensures !IsAsciiUpper(c) ==> d == c
  {
    if IsAsciiUpper(c) then (c as int + 32) as char else c
  }

  /** `s.toLowerCase()`, for ASCII letters: every upper-case letter becomes
      its lower-case partner and every other character is kept. */
  function ToLower(s: string): (r: string)
    ensures |r| == |s|
    ensures NoAsciiUpper(r)
    ensures forall k :: 0 <= k < |s| ==> r[k] == LowerChar(s[k])
  {
    if |s| == 0 then []
    else [LowerChar(s[0])] + ToLower(s[1..])
  }

  /** Lower-casing a string with no upper-case letter leaves it unchanged;
      in particular lower-casing is idempotent. */
  lemma {:induction false} ToLowerFixesLower(s: string)
    requires NoAsciiUpper(s)
    ensures ToLower(s) == s
  {
    if |s| > 0 {
      ToLowerFixesLower(s[1..]);
      assert s == [s[0]] + s[1..];
    }
  }

  /** Lower-casing is idempotent. */
  lemma ToLowerIdempotent(s: string)
    ensures ToLower(ToLower(s)) == ToLower(s)
  {
    ToLowerFixesLower(ToLower(s));
  }

  /** Two strings lower-case to the same value exactly when they have the
      same length and agree letter by letter up to ASCII case. */
  lemma ToLowerEqualIff(a: string, b: string)
    ensures ToLower(a) == ToLower(b) <==>
      |a| == |b| && forall k :: 0 <= k < |a| ==> LowerChar(a[k]) == LowerChar(b[k])
  {
    var la, lb := ToLower(a), ToLower(b);
    if la == lb {
      forall k | 0 <= k < |a|
        ensures LowerChar(a[k]) == LowerChar(b[k])
      {
        assert la[k] == LowerChar(a[k]);
      }
    }
    if |a| == |b| && forall k :: 0 <= k < |a| ==> LowerChar(a[k]) == LowerChar(b[k]) {
      forall k | 0 <= k < |la|
        ensures la[k] == lb[k]
      {
        assert la[k] == LowerChar(a[k]);
        assert lb[k] == LowerChar(b[k]);
      }
      assert la == lb;
    }
  }
}
