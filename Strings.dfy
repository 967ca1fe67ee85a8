/** String operations of the Swift standard library that the core relies on, stated over
    `seq<char>` (one `char` per Unicode scalar; grapheme clustering is not modelled). */
module Strings {

  /** Index of the first `sep` in `s`, or `|s|` when there is none. */
  function PieceEnd(s: string, sep: char): (k: nat)
    ensures k <= |s|
    ensures sep !in s[..k]
    ensures k < |s| ==> s[k] == sep
  {
    if s == [] || s[0] == sep then 0 else 1 + PieceEnd(s[1..], sep)
  }

  /** Swift's `split(separator:)` with its default `omittingEmptySubsequences: true`:
      the maximal runs of non-separator characters, in order. */
  function Split(s: string, sep: char): (pieces: seq<string>)
    ensures Separable(pieces, sep)
    decreases |s|
  {
    if s == [] then []
    else if s[0] == sep then Split(s[1..], sep)
    else
      var k := PieceEnd(s, sep);
      [s[..k]] + Split(s[k..], sep)
  }

  /** Pieces that `Split` can produce: non-empty and free of the separator. */
  ghost predicate Separable(pieces: seq<string>, sep: char) {
    forall i :: 0 <= i < |pieces| ==> pieces[i] != [] && sep !in pieces[i]
  }

  /** The pieces written out with one separator between neighbours. */
  function Join(pieces: seq<string>, sep: char): string {
    if |pieces| == 0 then []
    else if |pieces| == 1 then pieces[0]
    else pieces[0] + [sep] + Join(pieces[1..], sep)
  }

  /** Concatenation of all pieces. */
  function Concat(pieces: seq<string>): string {
    if pieces == [] then [] else pieces[0] + Concat(pieces[1..])
  }

  /** `s` with every `sep` removed. */
  function Without(s: string, sep: char): string {
    if s == [] then [] else (if s[0] == sep then [] else [s[0]]) + Without(s[1..], sep)
  }

  lemma {:induction false} PieceEndOfPrefix(p: string, rest: string, sep: char)
    requires sep !in p
    requires rest == [] || rest[0] == sep
    ensures PieceEnd(p + rest, sep) == |p|
  {
    if p != [] {
      assert (p + rest)[1..] == p[1..] + rest;
      PieceEndOfPrefix(p[1..], rest, sep);
    }
  }

  /** Round trip: splitting the joined pieces gives the pieces back. */
  lemma {:induction false} SplitJoin(pieces: seq<string>, sep: char)
    requires Separable(pieces, sep)
    ensures Split(Join(pieces, sep), sep) == pieces
  {
    if |pieces| == 1 {
      var p := pieces[0];
      PieceEndOfPrefix(p, [], sep);
      assert p + [] == p;
      assert p[..|p|] == p;
      assert p[|p|..] == [];
    } else if |pieces| > 1 {
      var p := pieces[0];
      var tail := Join(pieces[1..], sep);
      var s := p + [sep] + tail;
      assert s == p + ([sep] + tail);
      PieceEndOfPrefix(p, [sep] + tail, sep);
      assert s[..|p|] == p;
      assert s[|p|..] == [sep] + tail;
      assert ([sep] + tail)[1..] == tail;
      assert Separable(pieces[1..], sep) by {
        forall i | 0 <= i < |pieces[1..]|
          ensures pieces[1..][i] != [] && sep !in pieces[1..][i]
        {
          assert pieces[1..][i] == pieces[i + 1];
        }
      }
      SplitJoin(pieces[1..], sep);
    }
  }

  lemma {:induction false} WithoutAppend(a: string, b: string, sep: char)
    ensures Without(a + b, sep) == Without(a, sep) + Without(b, sep)
  {
    if a != [] {
      assert (a + b)[1..] == a[1..] + b;
      WithoutAppend(a[1..], b, sep);
    } else {
      assert a + b == b;
    }
  }

  lemma {:induction false} WithoutFree(s: string, sep: char)
    requires sep !in s
    ensures Without(s, sep) == s
  {
    if s != [] {
      WithoutFree(s[1..], sep);
    }
  }

  /** No character other than a separator is lost or reordered by `Split`. */
  lemma {:induction false} SplitKeepsCharacters(s: string, sep: char)
    ensures Concat(Split(s, sep)) == Without(s, sep)
    decreases |s|
  {
    if s != [] {
      if s[0] == sep {
        SplitKeepsCharacters(s[1..], sep);
      } else {
        var k := PieceEnd(s, sep);
        assert s == s[..k] + s[k..];
        WithoutAppend(s[..k], s[k..], sep);
        WithoutFree(s[..k], sep);
        SplitKeepsCharacters(s[k..], sep);
        assert ([s[..k]] + Split(s[k..], sep))[1..] == Split(s[k..], sep);
      }
    }
  }

  predicate StartsWith(s: string, prefix: string) {
    |prefix| <= |s| && s[..|prefix|] == prefix
  }

  predicate EndsWith(s: string, suffix: string) {
    |suffix| <= |s| && s[|s| - |suffix|..] == suffix
  }

  /** The last element of `components(separatedBy: "/")`: everything after the last `/`
      (the whole string when it holds no `/`, the empty string when it ends in `/`). */
  function LastComponent(s: string): (c: string)
    ensures '/' !in c
    ensures |c| <= |s| && s[|s| - |c|..] == c
    ensures |c| < |s| ==> s[|s| - |c| - 1] == '/'
  {
    if s == [] || s[|s| - 1] == '/' then []
    else LastComponent(s[..|s| - 1]) + [s[|s| - 1]]
  }

  /** Number of bytes a Unicode scalar takes in UTF-8 (RFC 3629, section 3). */
  function Utf8Width(c: char): (n: nat)
    ensures 1 <= n <= 4
  {
    if c as int < 0x80 then 1
    else if c as int < 0x800 then 2
    else if c as int < 0x1_0000 then 3
    else 4
  }

  /** `s.utf8.count`. */
  function Utf8Length(s: string): (n: nat)
    ensures |s| <= n <= 4 * |s|
  {
    if s == [] then 0 else Utf8Width(s[0]) + Utf8Length(s[1..])
  }

  lemma {:induction false} Utf8LengthAppend(a: string, b: string)
    ensures Utf8Length(a + b) == Utf8Length(a) + Utf8Length(b)
  {
    if a != [] {
      assert (a + b)[1..] == a[1..] + b;
      Utf8LengthAppend(a[1..], b);
    } else {
      assert a + b == b;
    }
  }

  function LowerAscii(c: char): char {
    if 'A' <= c <= 'Z' then (c as int + 32) as char else c
  }

  function UpperAscii(c: char): char {
    if 'a' <= c <= 'z' then (c as int - 32) as char else c
  }

  /** `lowercased()` restricted to ASCII letters. */
  function LowercasedAscii(s: string): (r: string)
    ensures |r| == |s|
    ensures forall i :: 0 <= i < |s| ==> r[i] == LowerAscii(s[i])
  {
    if s == [] then [] else [LowerAscii(s[0])] + LowercasedAscii(s[1..])
  }
}
