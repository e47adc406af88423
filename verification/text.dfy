/** The string operations the shop borrows from Python and from the database:
    `str.isspace`, `str.split()`, `' '.join`, `str.strip()`, `str.split(c)[0]`
    and the case-insensitive `icontains` lookup. Characters are compared as
    code points; case folding and whitespace cover the ASCII range only. */
module Text {

  /** `str.isspace()` on ASCII: tab, line feed, vertical tab, form feed,
      carriage return, the separators 0x1C-0x1F and the space. */
  predicate IsSpace(c: char)
  {
    (9 <= c as int <= 13) || (28 <= c as int <= 32)
  }

  predicate AllSpace(s: string)
  {
    forall i :: 0 <= i < |s| ==> IsSpace(s[i])
  }

  predicate NoSpace(s: string)
  {
    forall i :: 0 <= i < |s| ==> !IsSpace(s[i])
  }

  /** A word as `str.split()` yields it: non-empty and free of whitespace. */
  predicate IsWord(w: string)
  {
    w != [] && NoSpace(w)
  }

  /** No whitespace at either end. */
  predicate Trimmed(s: string)
  {
    s == [] || (!IsSpace(s[0]) && !IsSpace(s[|s| - 1]))
  }

  function LowerChar(c: char): char
  {
    if 'A' <= c <= 'Z' then (c as int + 32) as char else c
  }

  function Lower(s: string): string
  {
    seq(|s|, i requires 0 <= i < |s| => LowerChar(s[i]))
  }

  /** `n` occurs in `h` as a contiguous piece. */
  predicate IsInfix(n: string, h: string)
  {
    n <= h || (h != [] && IsInfix(n, h[1..]))
  }

  /** The database's `field__icontains=needle`, with ASCII case folding. */
  predicate ContainsIgnoringCase(hay: string, needle: string)
  {
    IsInfix(Lower(needle), Lower(hay))
  }

  /** Length of the run of non-whitespace at the front of `s`. */
  function WordLen(s: string): (n: nat)
    ensures n <= |s|
    ensures NoSpace(s[..n])
    ensures n < |s| ==> IsSpace(s[n])
  {
    if s == [] || IsSpace(s[0]) then 0 else 1 + WordLen(s[1..])
  }

  /** `str.split()` with no separator: the maximal runs of non-whitespace,
      left to right. */
  function Split(s: string): (ws: seq<string>)
    ensures forall i :: 0 <= i < |ws| ==> IsWord(ws[i])
    ensures ws == [] <==> AllSpace(s)
    decreases |s|
  {
    if s == [] then []
    else if IsSpace(s[0]) then
      var ws := Split(s[1..]);
      assert AllSpace(s[1..]) ==> AllSpace(s) by {
        if AllSpace(s[1..]) {
          forall i | 0 <= i < |s| ensures IsSpace(s[i]) {
            if i > 0 { assert s[i] == s[1..][i - 1]; }
          }
        }
      }
      ws
    else
      var n := WordLen(s);
      [s[..n]] + Split(s[n..])
  }

  /** Leading whitespace is dropped: it yields no word. */
  lemma {:induction false} SplitSkipsSpace(a: string, s: string)
    requires AllSpace(a)
    ensures Split(a + s) == Split(s)
  {
    if a != [] {
      assert (a + s)[0] == a[0];
      assert (a + s)[1..] == a[1..] + s;
      SplitSkipsSpace(a[1..], s);
    } else {
      assert a + s == s;
    }
  }

  /** A word followed by whitespace or the end of the text is the first
      word, and splitting goes on after it. */
  lemma SplitFirstWord(w: string, s: string)
    requires IsWord(w)
    requires s == [] || IsSpace(s[0])
    ensures Split(w + s) == [w] + Split(s)
  {
    var t := w + s;
    WordLenOfWord(w, s);
    assert t[0] == w[0];
    assert t[..|w|] == w;
    assert t[|w|..] == s;
  }

  /** `' '.join(ws)`. */
  function Join(ws: seq<string>): string
  {
    if ws == [] then ""
    else if |ws| == 1 then ws[0]
    else ws[0] + " " + Join(ws[1..])
  }

  lemma {:induction false} JoinSnoc(ws: seq<string>, w: string)
    requires ws != []
    ensures Join(ws + [w]) == Join(ws) + " " + w
  {
    if |ws| > 1 {
      assert (ws + [w])[1..] == ws[1..] + [w];
      JoinSnoc(ws[1..], w);
    } else {
      assert (ws + [w])[1..] == [w];
    }
  }

  lemma {:induction false} WordLenOfWord(w: string, rest: string)
    requires NoSpace(w)
    requires rest == [] || IsSpace(rest[0])
    ensures WordLen(w + rest) == |w|
  {
    if w != [] {
      assert (w + rest)[1..] == w[1..] + rest;
      WordLenOfWord(w[1..], rest);
    } else {
      assert w + rest == rest;
    }
  }

  /** Splitting what was joined from words gives the words back. */
  lemma {:induction false} SplitJoin(ws: seq<string>)
    requires forall i :: 0 <= i < |ws| ==> IsWord(ws[i])
    ensures Split(Join(ws)) == ws
  {
    if |ws| == 1 {
      WordLenOfWord(ws[0], []);
      assert ws[0] + [] == ws[0];
      assert ws[0][..|ws[0]|] == ws[0];
    } else if |ws| > 1 {
      var w, tail := ws[0], Join(ws[1..]);
      var s := w + " " + tail;
      assert s == w + (" " + tail);
      WordLenOfWord(w, " " + tail);
      assert s[..|w|] == w;
      assert s[|w|..] == " " + tail;
      assert (" " + tail)[1..] == tail;
      SplitJoin(ws[1..]);
      assert Split(s) == [w] + Split(" " + tail);
    }
  }

  /** Number of whitespace characters at the front of `s`. */
  function LeadLen(s: string): (n: nat)
    ensures n <= |s|
    ensures AllSpace(s[..n])
    ensures n < |s| ==> !IsSpace(s[n])
  {
    if s != [] && IsSpace(s[0]) then 1 + LeadLen(s[1..]) else 0
  }

  /** Number of whitespace characters at the back of `s`. */
  function TrailLen(s: string): (n: nat)
    ensures n <= |s|
    ensures AllSpace(s[|s| - n..])
    ensures n < |s| ==> !IsSpace(s[|s| - n - 1])
  {
    if s != [] && IsSpace(s[|s| - 1]) then
      var n := 1 + TrailLen(s[..|s| - 1]);
      assert s[|s| - n..] == s[..|s| - 1][|s| - n..] + [s[|s| - 1]];
      n
    else 0
  }

  /** `str.strip()`: `s` without leading and trailing whitespace. */
  function Strip(s: string): (r: string)
    ensures Trimmed(r)
    ensures exists i :: 0 <= i <= |s| - |r| && s[i..i + |r|] == r && AllSpace(s[..i]) && AllSpace(s[i + |r|..])
    ensures Trimmed(s) ==> r == s
    ensures NoSpace(s) ==> r == s
    ensures forall c :: c in r ==> c in s
  {
    var a := LeadLen(s);
    if a == |s| then
      assert s[0..0] == [] && s[..0] == [] && s[0..] == s[..a];
      []
    else
      var b := TrailLen(s);
      StripMiddle(s, a, b);
      s[a..|s| - b]
  }

  lemma StripMiddle(s: string, a: nat, b: nat)
    requires a == LeadLen(s) < |s| && b == TrailLen(s)
    ensures a < |s| - b
    ensures var r := s[a..|s| - b];
      && Trimmed(r) && s[a..a + |r|] == r && AllSpace(s[a + |r|..])
      && (Trimmed(s) ==> a == 0 && b == 0)
  {
    assert !IsSpace(s[a]);
  }

  /** `s.split(c)[0]`: the part of `s` before the first `c`, or all of `s`. */
  function Before(s: string, c: char): (r: string)
    ensures r <= s
    ensures c !in r
    ensures |r| < |s| ==> s[|r|] == c
    ensures c !in s ==> r == s
  {
    if s == [] || s[0] == c then [] else [s[0]] + Before(s[1..], c)
  }
}
