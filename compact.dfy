/**
 * The compact serialisation's text layer: the base64url alphabet of section 5
 * of RFC 4648 and the '.'-separated segments of section 7.1 of RFC 7515.
 */
module Compact {

  /** A character of the URL- and filename-safe base64 alphabet (no padding '='). */
  predicate IsBase64UrlChar(c: char)
  {
    ('A' <= c <= 'Z') || ('a' <= c <= 'z') || ('0' <= c <= '9') || c == '-' || c == '_'
  }

  /** Text made of base64url characters only. */
  predicate IsBase64UrlText(s: string)
  {
    forall i :: 0 <= i < |s| ==> IsBase64UrlChar(s[i])
  }

  /** Base64url text never contains the segment separator. */
  lemma Base64UrlHasNoDot(s: string)
    requires IsBase64UrlText(s)
    ensures '.' !in s
  {
  }

  /** The segments of `s` between its '.' characters (Kotlin's `s.split('.')`). */
  function Split(s: string): (parts: seq<string>)
    ensures |parts| >= 1
    decreases |s|
  {
    if s == [] then [""]
    else
      var rest := Split(s[1..]);
      if s[0] == '.' then [""] + rest else [[s[0]] + rest[0]] + rest[1..]
  }

  /** The segments joined with '.' between them. */
  function Join(parts: seq<string>): string
  {
    if |parts| <= 1 then (if parts == [] then "" else parts[0])
    else parts[0] + "." + Join(parts[1..])
  }

  /** Text without a separator is one segment. */
  lemma {:induction false} SplitNoDot(a: string)
    requires '.' !in a
    ensures Split(a) == [a]
  {
    if a != [] {
      SplitNoDot(a[1..]);
      assert [a[0]] + a[1..] == a;
    }
  }

  /** A dot-free prefix followed by '.' is the first segment of the whole. */
  lemma {:induction false} SplitPrefix(a: string, b: string)
    requires '.' !in a
    ensures Split(a + "." + b) == [a] + Split(b)
  {
    if a == [] {
      assert a + "." + b == "." + b;
      assert ("." + b)[1..] == b;
    } else {
      SplitPrefix(a[1..], b);
      assert (a + "." + b)[1..] == a[1..] + "." + b;
      assert [a[0]] + a[1..] == a;
    }
  }

  /** Splitting undoes joining when no segment holds a separator. */
  lemma {:induction false} SplitJoin(parts: seq<string>)
    requires |parts| >= 1
    requires forall i :: 0 <= i < |parts| ==> '.' !in parts[i]
    ensures Split(Join(parts)) == parts
  {
    if |parts| == 1 {
      SplitNoDot(parts[0]);
    } else {
      SplitJoin(parts[1..]);
      SplitPrefix(parts[0], Join(parts[1..]));
      assert [parts[0]] + parts[1..] == parts;
    }
  }

  /** Joining undoes splitting: no text is lost or added. */
  lemma {:induction false} JoinSplit(s: string)
    ensures Join(Split(s)) == s
  {
    if s != [] {
      var rest := Split(s[1..]);
      JoinSplit(s[1..]);
      if s[0] == '.' {
        assert Split(s) == [""] + rest;
        assert ([""] + rest)[1..] == rest;
        assert [s[0]] + s[1..] == s;
      } else {
        var parts := [[s[0]] + rest[0]] + rest[1..];
        assert parts[1..] == rest[1..];
        if |rest| == 1 {
          assert Join(rest) == rest[0];
        } else {
          assert Join(rest) == rest[0] + "." + Join(rest[1..]);
        }
        assert [s[0]] + s[1..] == s;
      }
    }
  }
}
