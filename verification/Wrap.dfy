/**
 Line wrapping of flowchart texts (wrap in packages/paseo-adapter/src/flowchart-ui.ts), from the words of the text
 on.
 */
module Wrap {
  import opened Common

  const ELLIPSIS := '\U{2026}'

  /** A word longer than the line is cut and marked. */
  function SafeWord(word: string, max: nat): string
    requires max >= 1
  {
    if |word| > max then word[..max - 1] + [ELLIPSIS] else word
  }

  /** One more word: on the last line if it fits there, else on a new line. */
  function AddWord(lines: seq<string>, word: string, max: nat): seq<string> {
    if lines != [] && |lines[|lines| - 1]| + 1 + |word| <= max
    then lines[..|lines| - 1] + [lines[|lines| - 1] + " " + word]
    else lines + [word]
  }

  /** Greedy wrapping without a limit on the number of lines. */
  function Greedy(words: seq<string>, max: nat): seq<string> {
    if words == [] then [] else AddWord(Greedy(words[..|words| - 1], max), words[|words| - 1], max)
  }

  predicate NonEmptyWords(words: seq<string>) {
    forall i :: 0 <= i < |words| ==> words[i] != ""
  }

  predicate ShortWords(words: seq<string>, max: nat) {
    forall i :: 0 <= i < |words| ==> |words[i]| <= max
  }

  /** The text needs no cut: every word and the wrapped whole fit. */
  predicate Fits(words: seq<string>, max: nat, maxLines: nat) {
    ShortWords(words, max) && |Greedy(words, max)| <= maxLines
  }

  function Cut(line: string, max: nat): string
    requires max >= 1
  {
    var kept := if line != "" && line[|line| - 1] == ELLIPSIS then line[..|line| - 1] else line;
    (if |kept| > max - 1 then kept[..max - 1] else kept) + [ELLIPSIS]
  }

  function SafeWords(words: seq<string>, max: nat): seq<string>
    requires max >= 1
  {
    seq(|words|, i requires 0 <= i < |words| => SafeWord(words[i], max))
  }

  ghost predicate GoodLines(lines: seq<string>, max: nat) {
    forall i :: 0 <= i < |lines| ==> 0 < |lines[i]| <= max
  }

  lemma AddWordGood(lines: seq<string>, word: string, max: nat)
    requires GoodLines(lines, max) && 0 < |word| <= max
    ensures GoodLines(AddWord(lines, word, max), max)
    ensures |lines| <= |AddWord(lines, word, max)| <= |lines| + 1
  {
  }

  lemma {:induction false} GreedyGrows(words: seq<string>, max: nat, n: nat)
    requires n <= |words|
    ensures |Greedy(words[..n], max)| <= |Greedy(words, max)|
  {
    if n < |words| {
      GreedyGrows(words[..|words| - 1], max, n);
      assert words[..|words| - 1][..n] == words[..n];
    } else {
      assert words[..n] == words;
    }
  }

  lemma GreedySnoc(words: seq<string>, max: nat, i: nat)
    requires i < |words|
    ensures Greedy(words[..i + 1], max) == AddWord(Greedy(words[..i], max), words[i], max)
  {
    assert words[..i + 1][..i] == words[..i];
  }

  /** Safe words of a text whose words are short are the words themselves. */
  lemma SafeWordsOfShort(words: seq<string>, max: nat)
    requires max >= 1 && ShortWords(words, max)
    ensures SafeWords(words, max) == words
  {
  }

  /** More words change no line but the last. */
  lemma {:induction false} LinesStay(words: seq<string>, max: nat, n: nat)
    requires n <= |words|
    ensures |Greedy(words[..n], max)| <= |Greedy(words, max)|
    ensures forall k :: 0 <= k < |Greedy(words[..n], max)| - 1 ==> Greedy(words, max)[k] == Greedy(words[..n], max)[k]
  {
    if n < |words| {
      LinesStay(words[..|words| - 1], max, n);
      assert words[..|words| - 1][..n] == words[..n];
    } else {
      assert words[..n] == words;
    }
  }

  /** Lines that the next word would overflow are the first lines of the whole text. */
  lemma FullLines(words: seq<string>, max: nat, maxLines: nat, i: nat)
    requires i < |words| && |Greedy(words[..i], max)| <= maxLines < |AddWord(Greedy(words[..i], max), words[i], max)|
    ensures Greedy(words[..i], max) == Take(Greedy(words, max), maxLines)
  {
    LinesStay(words, max, i + 1);
    GreedySnoc(words, max, i);
  }

  /** One round of the loop: full means that the word would need one line too many. */
  method PlaceWord(lines: seq<string>, safeWord: string, max: nat, maxLines: nat)
    returns (full: bool, lines': seq<string>)
    requires |lines| <= maxLines && maxLines >= 1
    ensures full ==> |AddWord(lines, safeWord, max)| > maxLines && lines' == lines && lines != []
    ensures !full ==> lines' == AddWord(lines, safeWord, max) && |lines'| <= maxLines
  {
    var current := |lines| - 1;
    if current >= 0 && |lines[current]| + 1 + |safeWord| > max {
      if |lines| == maxLines { return true, lines; }
      return false, lines + [safeWord];
    } else if current >= 0 {
      return false, lines[..current] + [lines[current] + " " + safeWord];
    } else {
      return false, lines + [safeWord];
    }
  }

  /** The loop: lines of the safe words, and whether something was or must be cut. */
  method FillLines(words: seq<string>, max: nat, maxLines: nat) returns (lines: seq<string>, truncated: bool)
    requires max >= 1 && maxLines >= 1 && NonEmptyWords(words)
    ensures |lines| <= maxLines && GoodLines(lines, max)
    ensures words != [] ==> lines != []
    ensures truncated <==> !Fits(words, max, maxLines)
    ensures lines == Take(Greedy(SafeWords(words, max), max), maxLines)
    ensures !truncated ==> lines == Greedy(words, max)
  {
    lines, truncated := [], false;
    ghost var safe := SafeWords(words, max);
    for i := 0 to |words|
      invariant lines == Greedy(safe[..i], max) && |lines| <= maxLines && GoodLines(lines, max)
      invariant i > 0 ==> lines != []
      invariant truncated <==> !ShortWords(words[..i], max)
    {
      GreedySnoc(safe, max, i);
      AddWordGood(lines, safe[i], max);
      ShortSnoc(words, max, i);
      var full;
      full, lines := PlaceWord(lines, SafeWord(words[i], max), max, maxLines);
      if full {
        NoRoom(words, max, maxLines, i);
        FullLines(safe, max, maxLines, i);
        return lines, true;
      }
      if |words[i]| > max { truncated := true; }
    }
    assert words[..|words|] == words && safe[..|words|] == safe;
    if !truncated { SafeWordsOfShort(words, max); }
  }

  lemma ShortSnoc(words: seq<string>, max: nat, i: nat)
    requires i < |words|
    ensures ShortWords(words[..i + 1], max) <==> ShortWords(words[..i], max) && |words[i]| <= max
  {
    assert words[..i + 1] == words[..i] + [words[i]];
  }

  lemma NoRoom(words: seq<string>, max: nat, maxLines: nat, i: nat)
    requires max >= 1 && i < |words| && |Greedy(SafeWords(words, max)[..i + 1], max)| > maxLines
    ensures !Fits(words, max, maxLines)
  {
    GreedyGrows(SafeWords(words, max), max, i + 1);
    if ShortWords(words, max) { SafeWordsOfShort(words, max); }
  }

  /**
   At most maxLines lines of at most max characters. A text that fits is wrapped greedily and whole. Of any other,
   these are the first lines of its words as cut to the line, the last one cut again and marked.
   */
  method WrapWords(words: seq<string>, max: nat, maxLines: nat) returns (lines: seq<string>)
    requires max >= 1 && maxLines >= 1 && NonEmptyWords(words)
    ensures |lines| <= maxLines && GoodLines(lines, max)
    ensures Fits(words, max, maxLines) ==> lines == Greedy(words, max)
    ensures !Fits(words, max, maxLines) ==>
              var shown := Take(Greedy(SafeWords(words, max), max), maxLines);
              && |lines| == |shown| && lines != [] && lines[..|lines| - 1] == shown[..|lines| - 1]
              && lines[|lines| - 1] == Cut(shown[|lines| - 1], max)
                  && lines[|lines| - 1][|lines[|lines| - 1]| - 1] == ELLIPSIS
  {
    if words == [] { return []; }
    var truncated;
    lines, truncated := FillLines(words, max, maxLines);
    if truncated {
      var last := |lines| - 1;
      lines := lines[last := Cut(lines[last], max)];
    }
  }

  // ----- What greedy wrapping keeps -----

  function Join(words: seq<string>): string {
    if words == [] then "" else if |words| == 1 then words[0] else Join(words[..|words| - 1]) + " " + words[|words| - 1]
  }

  lemma AddWordJoin(lines: seq<string>, word: string, max: nat)
    requires lines != []
    ensures Join(AddWord(lines, word, max)) == Join(lines) + " " + word
  {
    var n := |lines| - 1;
    var next := AddWord(lines, word, max);
    if |lines[n]| + 1 + |word| <= max {
      assert next[..n] == lines[..n];
      if n > 0 {
        assert Join(lines[..n]) + " " + (lines[n] + " " + word) == Join(lines[..n]) + " " + lines[n] + " " + word;
      }
    } else {
      assert next[..|lines|] == lines;
    }
  }

  /** The wrapped lines, joined by spaces again, are the text. */
  lemma {:induction false} GreedyKeepsText(words: seq<string>, max: nat)
    ensures Join(Greedy(words, max)) == Join(words)
    ensures words != [] ==> Greedy(words, max) != []
  {
    if |words| > 1 {
      GreedyKeepsText(words[..|words| - 1], max);
      AddWordJoin(Greedy(words[..|words| - 1], max), words[|words| - 1], max);
    } else if |words| == 1 {
      assert words[..0] == [];
    }
  }
}
