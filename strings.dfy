/** String helpers with the semantics of the JavaScript built-ins the source
    calls: `split` on a one-character separator, `toUpperCase` and
    `toLowerCase` on ASCII letters, and a character order standing for `<`. */
module Strings {
  import opened Basics

  /** `s.split(d)`: the pieces between occurrences of `d`. */
  function Split(s: string, d: char): (r: seq<string>)
    ensures |r| >= 1
    ensures forall i :: 0 <= i < |r| ==> d !in r[i]
  {
    if |s| == 0 then [""]
    else if s[0] == d then [""] + Split(s[1..], d)
    else
      var t := Split(s[1..], d);
      [[s[0]] + t[0]] + t[1..]
  }

  /** `segs.join(d)`. */
  function Join(segs: seq<string>, d: char): string
  {
    if |segs| == 0 then ""
    else if |segs| == 1 then segs[0]
    else segs[0] + [d] + Join(segs[1..], d)
  }

  predicate NoneContains(segs: seq<string>, d: char) {
    forall i :: 0 <= i < |segs| ==> d !in segs[i]
  }

  /** Splitting a string that starts with a separator-free prefix. */
  lemma {:induction false} SplitPrefix(a: string, tail: string, d: char)
    requires d !in a
    ensures Split(a + tail, d) == [a + Split(tail, d)[0]] + Split(tail, d)[1..]
  {
    if |a| > 0 {
      assert (a + tail)[0] == a[0];
      assert (a + tail)[1..] == a[1..] + tail;
      SplitPrefix(a[1..], tail, d);
      assert [a[0]] + (a[1..] + Split(tail, d)[0]) == a + Split(tail, d)[0];
    } else {
      var t := Split(tail, d);
      assert a + tail == tail;
      assert t == [t[0]] + t[1..];
      assert a + t[0] == t[0];
    }
  }

  /** `split` undoes `join` when no piece contains the separator. */
  lemma {:induction false} SplitJoin(segs: seq<string>, d: char)
    requires |segs| >= 1 && NoneContains(segs, d)
    ensures Split(Join(segs, d), d) == segs
  {
    if |segs| == 1 {
      SplitPrefix(segs[0], "", d);
      assert segs[0] + "" == segs[0];
    } else {
      var rest := Join(segs[1..], d);
      SplitJoin(segs[1..], d);
      assert segs[0] + [d] + rest == segs[0] + ([d] + rest);
      SplitPrefix(segs[0], [d] + rest, d);
      assert ([d] + rest)[1..] == rest;
      assert Split([d] + rest, d) == [""] + segs[1..];
      assert segs[0] + "" == segs[0];
    }
  }

  /** `join` undoes `split`. */
  lemma {:induction false} JoinSplit(s: string, d: char)
    ensures Join(Split(s, d), d) == s
  {
    if |s| > 0 {
      JoinSplit(s[1..], d);
      var t := Split(s[1..], d);
      if s[0] == d {
        assert Join([""] + t, d) == "" + [d] + Join(t, d);
      } else {
        var u := [[s[0]] + t[0]] + t[1..];
        if |t| == 1 {
          assert Join(u, d) == [s[0]] + t[0];
        } else {
          assert u[1..] == t[1..];
          assert Join(t, d) == t[0] + [d] + Join(t[1..], d);
          assert Join(u, d) == [s[0]] + t[0] + [d] + Join(t[1..], d);
        }
        assert s == [s[0]] + s[1..];
      }
    }
  }

  /** Joining a list and one more piece. */
  lemma {:induction false} JoinAppend(segs: seq<string>, x: string, d: char)
    requires |segs| >= 1
    ensures Join(segs + [x], d) == Join(segs, d) + [d] + x
  {
    if |segs| > 1 {
      assert (segs + [x])[1..] == segs[1..] + [x];
      JoinAppend(segs[1..], x, d);
    }
  }

  /** `_.last(s.split(d))` is the text after the last separator. */
  lemma {:induction false} LastPiece(a: string, b: string, d: char)
    requires d !in b
    ensures var r := Split(a + [d] + b, d); |r| >= 2 && r[|r| - 1] == b
  {
    if |a| == 0 {
      assert a + [d] + b == [d] + b;
      assert ([d] + b)[1..] == b;
      SplitPrefix(b, "", d);
      assert b + "" == b;
    } else {
      assert (a + [d] + b)[1..] == a[1..] + [d] + b;
      LastPiece(a[1..], b, d);
    }
  }

  /** Index of the first occurrence of `c` in `s`. */
  function IndexOf(s: string, c: char): (r: Option<nat>)
    ensures r.None? <==> c !in s
    ensures r.Some? ==> r.value < |s| && s[r.value] == c && c !in s[..r.value]
  {
    if |s| == 0 then None
    else if s[0] == c then Some(0)
    else
      match IndexOf(s[1..], c)
      case None => None
      case Some(i) =>
        assert s[..i + 1] == [s[0]] + s[1..][..i];
        Some(i + 1)
  }

  /** The first occurrence of `c` is where `IndexOf` finds it. */
  lemma {:induction false} IndexOfAt(s: string, c: char, k: nat)
    requires k < |s| && s[k] == c && c !in s[..k]
    ensures IndexOf(s, c) == Some(k)
  {
    if k > 0 {
      assert s[0] == s[..k][0];
      assert s[1..][k - 1] == c;
      assert s[..k] == [s[0]] + s[1..][..k - 1];
      IndexOfAt(s[1..], c, k - 1);
    }
  }

  function UpperChar(c: char): char {
    if 'a' <= c <= 'z' then (c as int - 32) as char else c
  }

  function LowerChar(c: char): char {
    if 'A' <= c <= 'Z' then (c as int + 32) as char else c
  }

  /** `s.toUpperCase()` restricted to ASCII letters. */
  function Upper(s: string): (r: string)
    ensures |r| == |s|
    ensures forall i :: 0 <= i < |r| ==> !('a' <= r[i] <= 'z')
    ensures forall i :: 0 <= i < |s| && !('a' <= s[i] <= 'z') ==> r[i] == s[i]
    ensures forall i :: 0 <= i < |s| && 'a' <= s[i] <= 'z' ==> r[i] == (s[i] as int - 32) as char
  {
    seq(|s|, i requires 0 <= i < |s| => UpperChar(s[i]))
  }

  /** `s.toLowerCase()` restricted to ASCII letters. */
  function Lower(s: string): (r: string)
    ensures |r| == |s|
    ensures forall i :: 0 <= i < |r| ==> !('A' <= r[i] <= 'Z')
    ensures forall i :: 0 <= i < |s| && !('A' <= s[i] <= 'Z') ==> r[i] == s[i]
    ensures forall i :: 0 <= i < |s| && 'A' <= s[i] <= 'Z' ==> r[i] == (s[i] as int + 32) as char
  {
    seq(|s|, i requires 0 <= i < |s| => LowerChar(s[i]))
  }

  /** A string without upper-case letters is its own lower case. */
  lemma LowerFixed(s: string)
    requires forall i :: 0 <= i < |s| ==> !('A' <= s[i] <= 'Z')
    ensures Lower(s) == s
  {
  }

  /** Lower-casing forgets an upper-casing. */
  lemma LowerUpper(s: string)
    ensures Lower(Upper(s)) == Lower(s)
  {
    forall i | 0 <= i < |s| ensures Lower(Upper(s))[i] == Lower(s)[i] {
      assert Upper(s)[i] == UpperChar(s[i]);
    }
  }

  lemma UpperIdempotent(s: string)
    ensures Upper(Upper(s)) == Upper(s)
  {
  }

  /** Lexicographic order on characters, standing for JavaScript's `<` on
      strings (and the default `Array.prototype.sort`). Dafny characters
      are Unicode scalar values, not UTF-16 code units. */
  predicate Less(a: string, b: string)
    decreases |a|
  {
    if |a| == 0 then |b| > 0
    else if |b| == 0 then false
    else a[0] < b[0] || (a[0] == b[0] && Less(a[1..], b[1..]))
  }

  lemma {:induction false} LessIrreflexive(a: string)
    ensures !Less(a, a)
  {
    if |a| > 0 {
      LessIrreflexive(a[1..]);
    }
  }

  lemma {:induction false} LessTransitive(a: string, b: string, c: string)
    requires Less(a, b) && Less(b, c)
    ensures Less(a, c)
  {
    if |a| > 0 && |b| > 0 && |c| > 0 && a[0] == b[0] == c[0] {
      LessTransitive(a[1..], b[1..], c[1..]);
    }
  }

  lemma {:induction false} LessTotal(a: string, b: string)
    requires a != b
    ensures Less(a, b) || Less(b, a)
  {
    if |a| > 0 && |b| > 0 && a[0] == b[0] {
      assert a == [a[0]] + a[1..] && b == [b[0]] + b[1..];
      LessTotal(a[1..], b[1..]);
    }
  }
}
