/** The text of a query: casefolded, and split into words. */
module QueryTexts {

  /** What Python's str and re take from the Unicode database, character by character. */
  datatype Characters =
    Characters(lower: char -> string, fold: char -> string, word: char -> bool, space: char -> bool)

  type Unicode = u: Characters | u.space(' ')
    witness Characters(c => [c], c => [c], c => false, c => c == ' ')

  function Mapped(f: char -> string, s: string): string {
    if s == "" then "" else f(s[0]) + Mapped(f, s[1..])
  }

  /** " ".join(s.split()): the words, a space between each two. */
  function Words(u: Unicode, s: string): string {
    if s == "" then ""
    else
      var init, last := s[..|s| - 1], s[|s| - 1];
      var before := Words(u, init);
      if u.space(last) then before
      else if init != "" && u.space(init[|init| - 1]) && before != "" then before + " " + [last]
      else before + [last]
  }

  // ---------------------------------------------------------------- what the words of a text are

  predicate Solid(u: Unicode, s: string) {
    forall i :: 0 <= i < |s| ==> !u.space(s[i])
  }

  predicate Blanks(u: Unicode, s: string) {
    forall i :: 0 <= i < |s| ==> u.space(s[i])
  }

  /** The text from i to j is a word with only blanks after it: a run without blanks that no longer
      run contains. */
  predicate LastWord(u: Unicode, s: string, i: nat, j: nat) {
    && i < j <= |s| && Solid(u, s[i..j]) && Blanks(u, s[j..])
    && (i > 0 ==> u.space(s[i - 1]))
  }

  /** The maximal runs without blanks in a text, in order. */
  ghost predicate Reads(u: Unicode, s: string, words: seq<string>)
    decreases |words|
  {
    if words == [] then Blanks(u, s)
    else
      exists i, j :: 0 <= i < j <= |s| && LastWord(u, s, i, j) && s[i..j] == words[|words| - 1]
                     && Reads(u, s[..i], words[..|words| - 1])
  }

  /** Two texts with the same words. */
  ghost predicate SameWords(u: Unicode, s: string, t: string) {
    exists words :: Reads(u, s, words) && Reads(u, t, words)
  }

  function Spaced(words: seq<string>): string {
    if words == [] then ""
    else if |words| == 1 then words[0]
    else Spaced(words[..|words| - 1]) + " " + words[|words| - 1]
  }

  lemma Taken(u: Unicode, s: string, words: seq<string>) returns (i: nat, j: nat)
    requires Reads(u, s, words) && words != []
    ensures i < j <= |s| && LastWord(u, s, i, j) && s[i..j] == words[|words| - 1]
    ensures Reads(u, s[..i], words[..|words| - 1])
  {
    i, j :| 0 <= i < j <= |s| && LastWord(u, s, i, j) && s[i..j] == words[|words| - 1]
            && Reads(u, s[..i], words[..|words| - 1]);
  }

  lemma Read(u: Unicode, s: string, words: seq<string>, i: nat, j: nat)
    requires words != [] && i < j <= |s| && LastWord(u, s, i, j) && s[i..j] == words[|words| - 1]
    requires Reads(u, s[..i], words[..|words| - 1])
    ensures Reads(u, s, words)
  {
  }

  lemma ReadsNothing(u: Unicode, s: string, words: seq<string>)
    requires words == []
    ensures Reads(u, s, words) <==> Blanks(u, s)
  {
  }

  lemma LastWordAt(u: Unicode, s: string, i: nat, j: nat)
    requires LastWord(u, s, i, j)
    ensures i < j <= |s|
    ensures forall k :: j <= k < |s| ==> u.space(s[k])
    ensures forall k :: i <= k < j ==> !u.space(s[k])
    ensures i > 0 ==> u.space(s[i - 1])
  {
    forall k | j <= k < |s|
      ensures u.space(s[k])
    {
      assert s[j..][k - j] == s[k];
    }
    forall k | i <= k < j
      ensures !u.space(s[k])
    {
      assert s[i..j][k - i] == s[k];
    }
  }

  lemma LastWordOnce(u: Unicode, s: string, i: nat, j: nat, m: nat, n: nat)
    requires LastWord(u, s, i, j) && LastWord(u, s, m, n)
    ensures i == m && j == n
  {
    hide LastWord;
    LastWordAt(u, s, i, j);
    LastWordAt(u, s, m, n);
    assert !u.space(s[n - 1]) && !u.space(s[j - 1]);
    assert (i > 0 ==> u.space(s[i - 1])) && (m > 0 ==> u.space(s[m - 1]));
  }

  lemma BlankAfter(u: Unicode, s: string, words: seq<string>, blank: char)
    requires Reads(u, s, words) && u.space(blank)
    ensures Reads(u, s + [blank], words)
  {
    hide Reads;
    var t := s + [blank];
    if words == [] {
      ReadsNothing(u, s, words);
      ReadsNothing(u, t, words);
    } else {
      var i, j := Taken(u, s, words);
      assert t[i..j] == s[i..j] && t[..i] == s[..i] && t[j..] == s[j..] + [blank];
      Read(u, t, words, i, j);
    }
  }

  lemma WordAfter(u: Unicode, s: string, words: seq<string>, word: string)
    requires Reads(u, s, words) && (s == "" || u.space(s[|s| - 1])) && word != "" && Solid(u, word)
    ensures Reads(u, s + word, words + [word])
  {
    hide Reads;
    var t, more := s + word, words + [word];
    assert t[|s|..|t|] == word && t[..|s|] == s && t[|t|..] == "";
    assert more[..|more| - 1] == words && more[|more| - 1] == word;
    Read(u, t, more, |s|, |t|);
  }

  lemma LastRun(u: Unicode, s: string, i: nat, j: nat)
    requires LastWord(u, s, i, j) && !u.space(s[|s| - 1])
    ensures j == |s| && s[i..j] == s[i..] && (s[..i] == "" || u.space(s[..i][|s[..i]| - 1]))
  {
    hide LastWord;
    LastWordAt(u, s, i, j);
    assert j == |s|;
    assert s[i..j] == s[i..];
  }

  lemma SolidMore(u: Unicode, s: string, i: nat, j: nat, c: char)
    requires LastWord(u, s, i, j) && !u.space(c)
    ensures Solid(u, s[i..j] + [c])
  {
  }

  lemma Longer(s: string, i: nat, c: char)
    requires i <= |s|
    ensures s[..i] + (s[i..] + [c]) == s + [c]
  {
  }

  lemma SomeWord(u: Unicode, s: string, words: seq<string>)
    requires Reads(u, s, words) && s != "" && !u.space(s[|s| - 1])
    ensures words != []
  {
    hide Reads;
    NoWord(u, s, words);
  }

  /** A character without a blank before it goes on with the last word. */
  lemma WordGoesOn(u: Unicode, s: string, words: seq<string>, c: char)
    requires Reads(u, s, words) && s != "" && !u.space(s[|s| - 1]) && !u.space(c)
    ensures words != [] && Reads(u, s + [c], words[..|words| - 1] + [words[|words| - 1] + [c]])
  {
    hide Reads, LastWord, Solid;
    SomeWord(u, s, words);
    var i, j := Taken(u, s, words);
    LastRun(u, s, i, j);
    SolidMore(u, s, i, j, c);
    var head, word := s[..i], s[i..j] + [c];
    WordAfter(u, head, words[..|words| - 1], word);
    Longer(s, i, c);
  }

  lemma {:induction false} ReadsSolid(u: Unicode, s: string, words: seq<string>)
    requires Reads(u, s, words)
    ensures forall k :: 0 <= k < |words| ==> words[k] != "" && Solid(u, words[k])
    decreases |words|
  {
    hide Reads;
    if words != [] {
      var i, j := Taken(u, s, words);
      ReadsSolid(u, s[..i], words[..|words| - 1]);
    }
  }

  lemma SpacedSnoc(words: seq<string>, word: string)
    ensures Spaced(words + [word]) == if words == [] then word else Spaced(words) + " " + word
  {
    assert (words + [word])[..|words|] == words;
  }

  lemma {:induction false} SpacedNothing(u: Unicode, s: string, words: seq<string>)
    requires Reads(u, s, words)
    ensures Spaced(words) == "" <==> words == []
  {
    ReadsSolid(u, s, words);
  }

  /** Joining the words is what the normalization computes. */
  lemma {:induction false} WordsRead(u: Unicode, s: string) returns (words: seq<string>)
    ensures Reads(u, s, words) && Words(u, s) == Spaced(words)
    decreases |s|
  {
    hide Reads, Spaced, Solid;
    if s == "" {
      words := [];
      NothingRead(u);
    } else {
      var init, last := s[..|s| - 1], s[|s| - 1];
      assert s == init + [last];
      words := WordsRead(u, init);
      SpacedNothing(u, init, words);
      if u.space(last) {
        BlankAfter(u, init, words, last);
      } else {
        OneSolid(u, last);
        if init == "" || u.space(init[|init| - 1]) {
          WordAfter(u, init, words, [last]);
          SpacedSnoc(words, [last]);
          words := words + [[last]];
        } else {
          WordGoesOn(u, init, words, last);
          var before, word := words[..|words| - 1], words[|words| - 1];
          assert words == before + [word];
          SpacedSnoc(before, word);
          SpacedSnoc(before, word + [last]);
          words := before + [word + [last]];
        }
      }
    }
  }

  lemma NothingRead(u: Unicode)
    ensures Reads(u, "", []) && Spaced([]) == ""
  {
  }

  lemma OneSolid(u: Unicode, c: char)
    requires !u.space(c)
    ensures Solid(u, [c])
  {
  }

  /** A text has one sequence of words. */
  lemma {:induction false} ReadOnce(u: Unicode, s: string, words: seq<string>, others: seq<string>)
    requires Reads(u, s, words) && Reads(u, s, others)
    ensures words == others
    decreases |words|
  {
    hide Reads, LastWord, Blanks;
    if words == [] || others == [] {
      NoWord(u, s, words);
      NoWord(u, s, others);
    } else {
      var i, j := Taken(u, s, words);
      var m, n := Taken(u, s, others);
      LastWordOnce(u, s, i, j, m, n);
      ReadOnce(u, s[..i], words[..|words| - 1], others[..|others| - 1]);
      assert words == words[..|words| - 1] + [words[|words| - 1]];
      assert others == others[..|others| - 1] + [others[|others| - 1]];
    }
  }

  lemma NoWord(u: Unicode, s: string, words: seq<string>)
    requires Reads(u, s, words)
    ensures words == [] <==> Blanks(u, s)
  {
    ReadsNothing(u, s, []);
    hide Reads;
    if words != [] {
      var i, j := Taken(u, s, words);
      assert s[i..j][0] == s[i];
    }
  }

  /** The normalized text has the words it was made of. */
  lemma {:induction false} SpacedReads(u: Unicode, words: seq<string>)
    requires forall k :: 0 <= k < |words| ==> words[k] != "" && Solid(u, words[k])
    ensures Reads(u, Spaced(words), words)
    decreases |words|
  {
    hide Reads, Solid;
    if words == [] {
      NothingRead(u);
    } else {
      var init, last := words[..|words| - 1], words[|words| - 1];
      assert words == init + [last];
      SpacedReads(u, init);
      if init == [] {
        assert "" + last == last;
        WordAfter(u, "", init, last);
      } else {
        BlankAfter(u, Spaced(init), init, ' ');
        WordAfter(u, Spaced(init) + " ", init, last);
      }
    }
  }

  /** Two texts are normalized alike if and only if they have the same words. */
  lemma WordsExactly(u: Unicode, s: string, t: string)
    ensures Words(u, s) == Words(u, t) <==> SameWords(u, s, t)
  {
    hide Reads, Words, Spaced, Solid;
    var words := WordsRead(u, s);
    var others := WordsRead(u, t);
    if Words(u, s) == Words(u, t) {
      ReadsSolid(u, s, words);
      ReadsSolid(u, t, others);
      SpacedReads(u, words);
      SpacedReads(u, others);
      ReadOnce(u, Spaced(words), words, others);
    }
    if SameWords(u, s, t) {
      var same :| Reads(u, s, same) && Reads(u, t, same);
      ReadOnce(u, s, words, same);
      ReadOnce(u, t, others, same);
    }
  }
}
