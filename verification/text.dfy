/** String helpers the link builder relies on: ASCII lower-casing (the part of
    Go's `strings.ToLower` that matters for the environment flags) and global
    replacement of one character sub a string (Go's `strings.ReplaceAll` as the
    mailer calls it, always with the one-character pattern "#").

    `Split` and `Join` give an independent reference definition of the
    replacement: replacing every `pat` sub `rep` is splitting at `pat` and
    joining the pieces with `rep`.
 */
module Text {

  /** ASCII lower-casing of one character; every other character is kept. */
  function LowerChar(c: char): char
  {
    if 'A' <= c <= 'Z' then (c as int + 32) as char else c
  }

  /** `strings.ToLower`, restricted to ASCII. */
  function Lower(s: string): (r: string)
    ensures |r| == |s|
    ensures forall i :: 0 <= i < |s| ==> r[i] == LowerChar(s[i])
  {
    seq(|s|, i requires 0 <= i < |s| => LowerChar(s[i]))
  }

  /** A lower-case ASCII letter `d` is the lower-case form of exactly two
      characters: itself and its upper-case partner. */
  lemma LowerCharInverse(c: char, d: char)
    requires 'a' <= d <= 'z'
    ensures LowerChar(c) == d <==> (c == d || c as int == d as int - 32)
  {
  }

  /** Number of occurrences of `c` in `s`. */
  function Count(s: string, c: char): nat
  {
    if s == [] then 0 else (if s[0] == c then 1 else 0) + Count(s[1..], c)
  }

  lemma {:induction false} CountZero(s: string, c: char)
    ensures Count(s, c) == 0 <==> c !in s
  {
    if s != [] {
      CountZero(s[1..], c);
      assert s == [s[0]] + s[1..];
    }
  }

  /** Every occurrence of `pat` in `s` replaced sub `rep`, left to right. */
  function ReplaceAll(s: string, pat: char, rep: string): (r: string)
    ensures pat !in s ==> r == s
    ensures pat !in rep ==> pat !in r
  {
    if s == [] then []
    else (if s[0] == pat then rep else [s[0]]) + ReplaceAll(s[1..], pat, rep)
  }

  /** Each occurrence of `pat` trades one character for `|rep|` of them. */
  lemma {:induction false} ReplaceAllLength(s: string, pat: char, rep: string)
    ensures |ReplaceAll(s, pat, rep)| + Count(s, pat) == |s| + Count(s, pat) * |rep|
  {
    if s != [] {
      ReplaceAllLength(s[1..], pat, rep);
      var n, m := Count(s[1..], pat), |rep|;
      var t := ReplaceAll(s[1..], pat, rep);
      assert |t| + n == |s| - 1 + n * m;
      if s[0] == pat {
        assert ReplaceAll(s, pat, rep) == rep + t;
        assert Count(s, pat) == n + 1;
        assert (n + 1) * m == n * m + m;
      } else {
        assert ReplaceAll(s, pat, rep) == [s[0]] + t;
        assert Count(s, pat) == n;
      }
    }
  }

  /** Replacement distributes over concatenation: it looks at one character
      at a time and never across a boundary. */
  lemma {:induction false} ReplaceAllConcat(a: string, b: string, pat: char, rep: string)
    ensures ReplaceAll(a + b, pat, rep) == ReplaceAll(a, pat, rep) + ReplaceAll(b, pat, rep)
  {
    if a == [] {
      assert a + b == b;
    } else {
      assert (a + b)[1..] == a[1..] + b;
      assert (a + b)[0] == a[0];
      ReplaceAllConcat(a[1..], b, pat, rep);
    }
  }

  /** Replacing sub a single character keeps the length, and position sub
      position turns `pat` into `sub` and leaves every other character alone. */
  lemma {:induction false} ReplaceAllPointwise(s: string, pat: char, sub: char)
    ensures |ReplaceAll(s, pat, [sub])| == |s|
    ensures forall i :: 0 <= i < |s| ==>
              ReplaceAll(s, pat, [sub])[i] == (if s[i] == pat then sub else s[i])
  {
    if s != [] {
      ReplaceAllPointwise(s[1..], pat, sub);
      var r := ReplaceAll(s, pat, [sub]);
      var t := ReplaceAll(s[1..], pat, [sub]);
      assert r == [if s[0] == pat then sub else s[0]] + t;
      forall i | 0 <= i < |s|
        ensures r[i] == (if s[i] == pat then sub else s[i])
      {
        if i > 0 {
          assert r[i] == t[i - 1];
          assert s[i] == s[1..][i - 1];
        }
      }
    }
  }

  /** When `pat` occurs exactly once, between `head` and `tail`, the
      replacement puts `rep` in its place and nothing else changes. */
  lemma {:induction false} ReplaceAllOneMarker(head: string, tail: string, pat: char, rep: string)
    requires pat !in head && pat !in tail
    ensures ReplaceAll(head + [pat] + tail, pat, rep) == head + rep + tail
  {
    ReplaceAllConcat(head + [pat], tail, pat, rep);
    ReplaceAllConcat(head, [pat], pat, rep);
    assert [pat][1..] == [];
    assert ReplaceAll([pat], pat, rep) == rep;
    assert ReplaceAll(head, pat, rep) == head;
    assert ReplaceAll(tail, pat, rep) == tail;
  }

  /** Replacing `pat` sub itself is the identity. */
  lemma {:induction false} ReplaceAllIdentity(s: string, pat: char)
    ensures ReplaceAll(s, pat, [pat]) == s
  {
    if s != [] {
      ReplaceAllIdentity(s[1..], pat);
      assert s == [s[0]] + s[1..];
    }
  }

  /** The pieces of `s` between occurrences of `sep`; there is always one more
      piece than there are separators, and no piece holds a separator. */
  function Split(s: string, sep: char): (parts: seq<string>)
    ensures |parts| == Count(s, sep) + 1
    ensures forall i :: 0 <= i < |parts| ==> sep !in parts[i]
  {
    if s == [] then [[]]
    else
      var rest := Split(s[1..], sep);
      if s[0] == sep then [[]] + rest
      else [[s[0]] + rest[0]] + rest[1..]
  }

  /** The pieces concatenated with `sep` between neighbours. */
  function Join(parts: seq<string>, sep: string): string
  {
    if parts == [] then []
    else if |parts| == 1 then parts[0]
    else parts[0] + sep + Join(parts[1..], sep)
  }

  /** Prepending to the first piece prepends to the joined string. */
  lemma JoinConsFirst(x: string, parts: seq<string>, sep: string)
    requires parts != []
    ensures Join([x + parts[0]] + parts[1..], sep) == x + Join(parts, sep)
  {
    var ps := [x + parts[0]] + parts[1..];
    assert ps[1..] == parts[1..];
  }

  /** The reference definition: replacing every `pat` sub `rep` is splitting at
      `pat` and joining the pieces with `rep`. */
  lemma {:induction false} ReplaceAllIsSplitJoin(s: string, pat: char, rep: string)
    ensures ReplaceAll(s, pat, rep) == Join(Split(s, pat), rep)
  {
    if s != [] {
      ReplaceAllIsSplitJoin(s[1..], pat, rep);
      var rest := Split(s[1..], pat);
      if s[0] == pat {
        var ps := [[]] + rest;
        assert ps[1..] == rest;
        assert Join(ps, rep) == [] + rep + Join(rest, rep);
      } else {
        JoinConsFirst([s[0]], rest, rep);
      }
    }
  }

  /** Round trip: joining the pieces of `s` with the separator gives back `s`. */
  lemma SplitJoinRoundTrip(s: string, sep: char)
    ensures Join(Split(s, sep), [sep]) == s
  {
    ReplaceAllIsSplitJoin(s, sep, [sep]);
    ReplaceAllIdentity(s, sep);
  }
}
