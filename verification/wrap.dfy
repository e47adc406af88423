/** The text `create_product_image` in
    myapp/management/commands/populate_products.py puts on a seeded
    product's picture: the product name wrapped into lines of at most
    twenty characters, and the picture's file name. */
module ImageLabel {
  import opened Seqs
  import opened Text

  /** The widest line the wrap aims for. */
  const Width := 20

  /** The words of `lines`, line after line. */
  function WordsOf(lines: seq<string>): seq<string>
  {
    if lines == [] then [] else Split(lines[0]) + WordsOf(lines[1..])
  }

  lemma {:induction false} WordsOfSnoc(lines: seq<string>, line: string)
    ensures WordsOf(lines + [line]) == WordsOf(lines) + Split(line)
  {
    if lines == [] {
      assert [line][1..] == [];
    } else {
      assert (lines + [line])[1..] == lines[1..] + [line];
      WordsOfSnoc(lines[1..], line);
    }
  }

  /** `' '.join(group)` as a line: its words are the group again. */
  lemma JoinedLine(group: seq<string>)
    requires forall k :: 0 <= k < |group| ==> IsWord(group[k])
    ensures Split(Join(group)) == group
    ensures Join(Split(Join(group))) == Join(group)
  {
    SplitJoin(group);
  }

  /** A line is well formed: some words joined by single spaces, no wider
      than `Width` unless it is a single word. */
  predicate GoodLine(line: string)
  {
    && Split(line) != []
    && line == Join(Split(line))
    && (|Split(line)| > 1 ==> |line| <= Width)
  }

  /** `line` has no room left for the first word of `next`. */
  predicate Full(line: string, next: string)
  {
    Split(next) != [] && |line| + 1 + |Split(next)[0]| > Width
  }

  /** Every line is good and none could have taken the next one's first word. */
  predicate WellWrapped(lines: seq<string>)
  {
    && (forall k :: 0 <= k < |lines| ==> GoodLine(lines[k]))
    && (forall k :: 0 <= k < |lines| - 1 ==> Full(lines[k], lines[k + 1]))
  }

  /** The loop that splits `product_name` into lines: words are added to
      the current line until it would exceed `Width`; then the current line
      is closed and the word starts the next one, except that a single word
      wider than `Width` forms a line of its own. Every word is kept, in
      order; only single-word lines can be too wide; and no line could have
      taken the first word of the next one. */
  method WrapName(name: string) returns (lines: seq<string>)
    ensures WordsOf(lines) == Split(name)
    ensures forall k :: 0 <= k < |lines| ==> GoodLine(lines[k])
    ensures forall k :: 0 <= k < |lines| - 1 ==> Full(lines[k], lines[k + 1])
  {
    var words := Split(name);
    lines := [];
    var current: seq<string> := [];
    var i := 0;
    while i < |words|
      invariant 0 <= i <= |words|
      invariant Wrapping(lines, current, words[..i])
    {
      var word := words[i];
      assert words[..i + 1] == words[..i] + [word];
      if |Join(current + [word])| > Width {
        if |current + [word]| > 1 {
          CloseBeforeWord(lines, current, word, words[..i]);
          lines := lines + [Join(current)];
          current := [word];
        } else {
          WordAlone(lines, current, word, words[..i]);
          lines := lines + [word];
          current := [];
        }
      } else {
        AddWord(lines, current, word, words[..i]);
        current := current + [word];
      }
      i := i + 1;
    }
    assert words[..i] == words;
    if current != [] {
      CloseLast(lines, current, words);
      lines := lines + [Join(current)];
    }
  }

  /** What holds between the loop's steps: the closed `lines` followed by
      the `current` words are the words seen so far, the closed lines are
      well wrapped, `current` fits unless it is a single word, and the last
      closed line has no room for the first word of `current` (or, when
      `current` is empty, is a single over-wide word). */
  predicate Wrapping(lines: seq<string>, current: seq<string>, seen: seq<string>)
  {
    && WordsOf(lines) + current == seen
    && WellWrapped(lines)
    && Pending(lines, current)
  }

  /** The open line: its words, which fit unless there is one, and which
      the last closed line has no room for (or, when there are none, that
      last line is a single over-wide word). */
  predicate Pending(lines: seq<string>, current: seq<string>)
  {
    && (forall k :: 0 <= k < |current| ==> IsWord(current[k]))
    && (|current| > 1 ==> |Join(current)| <= Width)
    && (lines != [] && current != [] ==> |lines[|lines| - 1]| + 1 + |current[0]| > Width)
    && (lines != [] && current == [] ==> |lines[|lines| - 1]| > Width)
  }

  /** Closing the current line `group` gives a good line whose words are
      `group`, so no word is lost. */
  lemma CloseLine(lines: seq<string>, group: seq<string>)
    requires group != [] && forall k :: 0 <= k < |group| ==> IsWord(group[k])
    requires |group| > 1 ==> |Join(group)| <= Width
    ensures Split(Join(group)) == group
    ensures GoodLine(Join(group))
    ensures WordsOf(lines + [Join(group)]) == WordsOf(lines) + group
  {
    WordsOfSnoc(lines, Join(group));
    JoinedLine(group);
  }

  /** Appending a good line that the previous line has no room for keeps
      the lines well wrapped. */
  lemma AppendLine(lines: seq<string>, line: string)
    requires WellWrapped(lines) && GoodLine(line)
    requires lines != [] ==> Full(lines[|lines| - 1], line)
    ensures WellWrapped(lines + [line])
  {
    var r := lines + [line];
    forall k | 0 <= k < |r| - 1 ensures Full(r[k], r[k + 1]) {
      if k + 1 < |lines| {
        assert r[k] == lines[k] && r[k + 1] == lines[k + 1];
      }
    }
  }

  /** The step where `word` does not fit after the non-empty current line. */
  lemma CloseBeforeWord(lines: seq<string>, current: seq<string>, word: string, seen: seq<string>)
    requires Wrapping(lines, current, seen) && IsWord(word)
    requires current != [] && |Join(current + [word])| > Width
    ensures Wrapping(lines + [Join(current)], [word], seen + [word])
  {
    CloseLine(lines, current);
    JoinSnoc(current, word);
    AppendLine(lines, Join(current));
  }

  /** The step where `word` alone is wider than a line. */
  lemma WordAlone(lines: seq<string>, current: seq<string>, word: string, seen: seq<string>)
    requires Wrapping(lines, current, seen) && IsWord(word)
    requires current == [] && |Join(current + [word])| > Width
    ensures Wrapping(lines + [word], [], seen + [word])
  {
    assert current + [word] == [word];
    CloseLine(lines, [word]);
    JoinedLine([word]);
    assert Join([word]) == word by {
      assert Split(word) == [word];
      SplitJoin([word]);
    }
    AppendLine(lines, word);
  }

  /** The step where `word` fits on the current line. */
  lemma AddWord(lines: seq<string>, current: seq<string>, word: string, seen: seq<string>)
    requires Wrapping(lines, current, seen) && IsWord(word)
    requires |Join(current + [word])| <= Width
    ensures Wrapping(lines, current + [word], seen + [word])
  {
    if current == [] {
      assert current + [word] == [word];
    }
  }

  /** Closing the last line after the loop. */
  lemma CloseLast(lines: seq<string>, current: seq<string>, seen: seq<string>)
    requires Wrapping(lines, current, seen) && current != []
    ensures WordsOf(lines + [Join(current)]) == seen
    ensures WellWrapped(lines + [Join(current)])
  {
    CloseLine(lines, current);
    AppendLine(lines, Join(current));
  }

  /** Python's `s.replace(" ", "_")`. */
  function Underscored(s: string): string
  {
    seq(|s|, i requires 0 <= i < |s| => if s[i] == ' ' then '_' else s[i])
  }

  /** The image file name, `f'{name.replace(" ", "_")[:50]}.png'`: the
      first fifty characters of the name, spaces turned into underscores,
      then `.png`. */
  function ImageFileName(name: string): (r: string)
    ensures |r| == Min(50, |name|) + 4
    ensures r[|r| - 4..] == ".png"
    ensures forall i :: 0 <= i < |r| - 4 ==> r[i] == if name[i] == ' ' then '_' else name[i]
    ensures ' ' !in r
  {
    Take(Underscored(name), 50) + ".png"
  }

  /** A space and an underscore give the same file name, so two different
      product names can share one. */
  lemma FileNamesCollide()
    ensures ImageFileName("RTX 4090") == ImageFileName("RTX_4090")
  {
    assert Underscored("RTX 4090") == Underscored("RTX_4090");
  }

  /** Names that agree on their first fifty characters get the same file name. */
  lemma LongNamesCollide(a: string, b: string)
    requires |a| >= 50 && |b| >= 50 && a[..50] == b[..50]
    ensures ImageFileName(a) == ImageFileName(b)
  {
    assert forall i :: 0 <= i < 50 ==> a[i] == a[..50][i] == b[..50][i] == b[i];
    assert Take(Underscored(a), 50) == Take(Underscored(b), 50);
  }
}
