/**
 The teaser of a search result: weigh the words of the page, choose the heaviest window of words, and
 mark the search terms inside it.
 */
module Teaser {
  import opened Text

  const TERM_WEIGHT: nat := 40
  const FIRST_WORD_WEIGHT: nat := 8
  const WORD_WEIGHT: nat := 2

  datatype Entry = Entry(word: string, weight: nat, index: nat)

  /** A page's words are compared with the stemmed search terms. */
  datatype Query = Query(stem: string -> string, terms: seq<string>)

  predicate Matches(q: Query, word: string) {
    exists i :: 0 <= i < |q.terms| && q.terms[i] <= q.stem(word)
  }

  // ---------------------------------------------------------------------------------------------
  // Weighing

  function WeighWord(q: Query, word: string, value: nat, index: nat): seq<Entry> {
    if word == "" then [] else [Entry(word, if Matches(q, word) then TERM_WEIGHT else value, index)]
  }

  function WeighWords(q: Query, words: seq<string>, value: nat, index: nat): seq<Entry> {
    if words == [] then []
    else
      WeighWord(q, words[0], value, index)
      + WeighWords(q, words[1..], if words[0] == "" then value else WORD_WEIGHT, index + |words[0]| + 1)
  }

  function WeighSentences(q: Query, sentences: seq<string>, index: nat): seq<Entry> {
    if sentences == [] then []
    else WeighWords(q, Split(sentences[0], ' '), FIRST_WORD_WEIGHT, index)
         + WeighSentences(q, sentences[1..], index + |sentences[0]| + 2)
  }

  function Weigh(q: Query, lower: string): seq<Entry> {
    WeighSentences(q, SplitSentences(lower), 0)
  }

  function Length(words: seq<string>): nat {
    if words == [] then 0 else |words[0]| + 1 + Length(words[1..])
  }

  predicate AnyMatch(q: Query, entries: seq<Entry>) {
    exists e :: e in entries && Matches(q, e.word)
  }

  lemma AnyMatchConcat(q: Query, a: seq<Entry>, b: seq<Entry>)
    ensures AnyMatch(q, a + b) <==> AnyMatch(q, a) || AnyMatch(q, b)
  {
    hide Matches;
    if AnyMatch(q, a) { var e :| e in a && Matches(q, e.word); assert e in a + b; }
    if AnyMatch(q, b) { var e :| e in b && Matches(q, e.word); assert e in a + b; }
  }

  lemma AnyMatchInWord(q: Query, word: string, value: nat, index: nat)
    ensures AnyMatch(q, WeighWord(q, word, value, index)) <==> word != "" && Matches(q, word)
  {
    hide Matches;
    if word != "" { assert WeighWord(q, word, value, index)[0].word == word; }
  }

  lemma WeighNext(q: Query, words: seq<string>, n: nat, value: nat, index: nat)
    requires n < |words|
    ensures WeighWords(q, words[n..], value, index)
         == WeighWord(q, words[n], value, index)
            + WeighWords(q, words[n + 1..], if words[n] == "" then value else WORD_WEIGHT, index + |words[n]| + 1)
    ensures Length(words[n..]) == |words[n]| + 1 + Length(words[n + 1..])
  {
    hide Matches, WeighWord;
    assert words[n..][1..] == words[n + 1..];
  }

  lemma NothingWeighed(q: Query, words: seq<string>, value: nat, index: nat)
    ensures words[0..] == words && WeighWords(q, words[|words|..], value, index) == [] && Length(words[|words|..]) == 0
    ensures !AnyMatch(q, [])
  {
  }

  method FindTerm(q: Query, word: string) returns (matches: bool)
    ensures matches <==> Matches(q, word)
  {
    matches := false;
    for i := 0 to |q.terms|
      invariant matches <==> exists k :: 0 <= k < i && q.terms[k] <= q.stem(word)
    {
      if q.terms[i] <= q.stem(word) {
        matches := true;
      }
    }
  }

  /** The inner loop of the weighing: one sentence. */
  method WeighSentence(q: Query, words: seq<string>, start: nat) returns (entries: seq<Entry>, index: nat, found: bool)
    ensures entries == WeighWords(q, words, FIRST_WORD_WEIGHT, start)
    ensures index == start + Length(words)
    ensures found <==> AnyMatch(q, entries)
  {
    hide Matches, AnyMatch, WeighWords, Length;
    entries, index, found := [], start, false;
    var value := FIRST_WORD_WEIGHT;
    var n := 0;
    NothingWeighed(q, words, value, index);
    while n < |words|
      invariant n <= |words| && index + Length(words[n..]) == start + Length(words)
      invariant entries + WeighWords(q, words[n..], value, index) == WeighWords(q, words, FIRST_WORD_WEIGHT, start)
      invariant found <==> AnyMatch(q, entries)
    {
      var word := words[n];
      WeighNext(q, words, n, value, index);
      AnyMatchInWord(q, word, value, index);
      ghost var weighed := WeighWord(q, word, value, index);
      AnyMatchConcat(q, entries, weighed);
      if |word| > 0 {
        var matches := FindTerm(q, word);
        if matches {
          value := TERM_WEIGHT;
          found := true;
        }
        assert weighed == [Entry(word, value, index)];
        entries := entries + [Entry(word, value, index)];
        value := WORD_WEIGHT;
      }
      index := index + |word|;
      index := index + 1;
      n := n + 1;
    }
    NothingWeighed(q, words, value, index);
  }

  lemma {:induction false} LengthOfSplit(words: seq<string>)
    requires |words| > 0
    ensures Length(words) == |Join(words, ' ')| + 1
  {
    if |words| > 1 { LengthOfSplit(words[1..]); }
  }

  lemma WeighNextSentence(q: Query, sentences: seq<string>, n: nat, index: nat)
    requires n < |sentences|
    ensures WeighSentences(q, sentences[n..], index)
         == WeighWords(q, Split(sentences[n], ' '), FIRST_WORD_WEIGHT, index)
            + WeighSentences(q, sentences[n + 1..], index + |sentences[n]| + 2)
    ensures Length(Split(sentences[n], ' ')) == |sentences[n]| + 1
  {
    assert sentences[n..][1..] == sentences[n + 1..];
    JoinOfSplit(sentences[n], ' ');
    LengthOfSplit(Split(sentences[n], ' '));
    hide WeighWords, Split;
  }

  lemma Associative(a: seq<Entry>, b: seq<Entry>, c: seq<Entry>)
    ensures (a + b) + c == a + (b + c)
  {
  }

  lemma WeighBounds(q: Query, lower: string, index: nat)
    ensures var sentences := SplitSentences(lower);
            && WeighSentences(q, sentences[0..], 0) == Weigh(q, lower)
            && WeighSentences(q, sentences[|sentences|..], index) == []
    ensures !AnyMatch(q, [])
  {
    assert SplitSentences(lower)[0..] == SplitSentences(lower);
    hide SplitSentences, WeighWords, Split;
  }

  method WeighBody(q: Query, lower: string) returns (entries: seq<Entry>, found: bool)
    ensures entries == Weigh(q, lower)
    ensures found <==> AnyMatch(q, entries)
  {
    var sentences := SplitSentences(lower);
    entries, found := [], false;
    var index: nat, n: nat := 0, 0;
    WeighBounds(q, lower, index);
    hide Weigh, WeighSentences, WeighWords, WeighWord, Length, Split, SplitSentences, Matches, AnyMatch;
    while n < |sentences|
      invariant n <= |sentences|
      invariant entries + WeighSentences(q, sentences[n..], index) == Weigh(q, lower)
      invariant found <==> AnyMatch(q, entries)
    {
      var words := Split(sentences[n], ' ');
      WeighNextSentence(q, sentences, n, index);
      var more, next, hit := WeighSentence(q, words, index);
      AnyMatchConcat(q, entries, more);
      Associative(entries, more, WeighSentences(q, sentences[n + 1..], index + |sentences[n]| + 2));
      entries := entries + more;
      found := found || hit;
      index := next + 1;
      n := n + 1;
    }
    WeighBounds(q, lower, index);
  }

  /** Every recorded offset is the true position of its word, and the words follow one another without touching. */
  predicate Located(text: string, entries: seq<Entry>) {
    && (forall i :: 0 <= i < |entries| ==>
          && |entries[i].word| > 0 && entries[i].weight > 0
          && entries[i].index + |entries[i].word| <= |text|
          && text[entries[i].index..entries[i].index + |entries[i].word|] == entries[i].word)
    && forall i :: 0 <= i < |entries| - 1 ==> entries[i].index + |entries[i].word| < entries[i + 1].index
  }

  predicate Within(entries: seq<Entry>, lo: nat, hi: nat) {
    forall i :: 0 <= i < |entries| ==> lo <= entries[i].index && entries[i].index + |entries[i].word| <= hi
  }

  lemma LocatedConcat(text: string, a: seq<Entry>, b: seq<Entry>, lo: nat, mid: nat, hi: nat)
    requires Located(text, a) && Located(text, b) && Within(a, lo, mid) && Within(b, mid + 1, hi)
    requires lo <= mid <= hi
    ensures Located(text, a + b) && Within(a + b, lo, hi)
  {
  }

  lemma WordLocated(q: Query, text: string, word: string, value: nat, index: nat)
    requires value > 0 && index + |word| <= |text| && text[index..index + |word|] == word
    ensures Located(text, WeighWord(q, word, value, index))
    ensures Within(WeighWord(q, word, value, index), index, index + |word|)
  {
  }

  lemma PartsOfText(text: string, index: nat, a: string, sep: string, b: string)
    requires index + |a + sep + b| <= |text| && text[index..index + |a + sep + b|] == a + sep + b
    ensures text[index..index + |a|] == a
    ensures text[index + |a| + |sep|..index + |a| + |sep| + |b|] == b
  {
    var part := a + sep + b;
    assert forall i :: 0 <= i < |part| ==> text[index + i] == part[i];
    assert forall i :: 0 <= i < |a| ==> part[i] == a[i];
    assert forall i :: 0 <= i < |b| ==> part[|a| + |sep| + i] == b[i];
  }

  lemma {:induction false} WordsLocated(q: Query, text: string, words: seq<string>, value: nat, index: nat)
    requires |words| > 0 && value > 0
    requires index + |Join(words, ' ')| <= |text| && text[index..index + |Join(words, ' ')|] == Join(words, ' ')
    ensures Located(text, WeighWords(q, words, value, index))
    ensures Within(WeighWords(q, words, value, index), index, index + |Join(words, ' ')|)
  {
    hide WeighWord, Located, Within, Matches;
    var head := WeighWord(q, words[0], value, index);
    var next := if words[0] == "" then value else WORD_WEIGHT;
    var tail := WeighWords(q, words[1..], next, index + |words[0]| + 1);
    assert WeighWords(q, words, value, index) == head + tail;
    if |words| == 1 {
      WordLocated(q, text, words[0], value, index);
      assert words[1..] == [] && tail == [] && head + tail == head;
    } else {
      PartsOfText(text, index, words[0], " ", Join(words[1..], ' '));
      WordLocated(q, text, words[0], value, index);
      WordsLocated(q, text, words[1..], next, index + |words[0]| + 1);
      LocatedConcat(text, head, tail, index, index + |words[0]|, index + |Join(words, ' ')|);
    }
  }

  lemma WithinUpTo(entries: seq<Entry>, from: nat, lo: nat, hi: nat)
    requires Within(entries, from, hi) && lo <= from
    ensures Within(entries, lo, hi)
  {
  }

  lemma {:induction false} SentencesLocated(q: Query, text: string, sentences: seq<string>, index: nat)
    requires |sentences| > 0
    requires index + |JoinSentences(sentences)| == |text|
    requires text[index..index + |JoinSentences(sentences)|] == JoinSentences(sentences)
    ensures Located(text, WeighSentences(q, sentences, index))
    ensures Within(WeighSentences(q, sentences, index), index, |text|)
  {
    hide WeighWords, Located, Within, Split, Join;
    var words := Split(sentences[0], ' ');
    JoinOfSplit(sentences[0], ' ');
    var head := WeighWords(q, words, FIRST_WORD_WEIGHT, index);
    var next := index + |sentences[0]| + 2;
    var tail := WeighSentences(q, sentences[1..], next);
    assert WeighSentences(q, sentences, index) == head + tail;
    if |sentences| == 1 {
      WordsLocated(q, text, words, FIRST_WORD_WEIGHT, index);
      assert sentences[1..] == [] && tail == [] && head + tail == head;
    } else {
      PartsOfText(text, index, sentences[0], ". ", JoinSentences(sentences[1..]));
      WordsLocated(q, text, words, FIRST_WORD_WEIGHT, index);
      SentencesLocated(q, text, sentences[1..], next);
      WithinUpTo(tail, next, index + |sentences[0]| + 1, |text|);
      LocatedConcat(text, head, tail, index, index + |sentences[0]|, |text|);
    }
  }

  /** Across both levels of splitting, the weighed words are where they are said to be. */
  lemma OffsetsAreTrue(q: Query, lower: string)
    ensures Located(lower, Weigh(q, lower))
  {
    JoinOfSentences(lower);
    assert lower[0..0 + |lower|] == lower;
    SentencesLocated(q, lower, SplitSentences(lower), 0);
  }

  // ---------------------------------------------------------------------------------------------
  // The weights

  predicate Blank(text: string, from: nat, to: nat) {
    to <= |text| && forall k :: from <= k < to ==> text[k] == ' '
  }

  predicate Weighs(q: Query, e: Entry, unmatched: nat) {
    e.weight == if Matches(q, e.word) then 40 else unmatched
  }

  /** The first word of a sentence has one weight and all later ones another, with only blanks in between. */
  predicate SentenceWeighed(q: Query, text: string, entries: seq<Entry>, from: nat, first: nat) {
    && (entries != [] ==> Blank(text, from, entries[0].index) && Weighs(q, entries[0], first))
    && forall i :: 0 < i < |entries| ==>
         Blank(text, entries[i - 1].index + |entries[i - 1].word|, entries[i].index) && Weighs(q, entries[i], 2)
  }

  lemma BlankInFront(q: Query, text: string, entries: seq<Entry>, at: nat, first: nat)
    requires at < |text| && text[at] == ' ' && SentenceWeighed(q, text, entries, at + 1, first)
    ensures SentenceWeighed(q, text, entries, at, first)
  {
    hide Matches;
  }

  lemma EntryInFront(q: Query, text: string, e: Entry, entries: seq<Entry>, first: nat)
    requires e.index <= |text| && Weighs(q, e, first)
    requires SentenceWeighed(q, text, entries, e.index + |e.word|, 2)
    ensures SentenceWeighed(q, text, [e] + entries, e.index, first)
  {
    hide Weighs;
    var all := [e] + entries;
    assert Blank(text, e.index, all[0].index);
    hide Blank;
    forall i | 0 < i < |all|
      ensures Blank(text, all[i - 1].index + |all[i - 1].word|, all[i].index) && Weighs(q, all[i], 2)
    {
      if i > 1 { assert all[i - 1] == entries[i - 2]; }
    }
  }

  lemma WordInFront(q: Query, text: string, word: string, value: nat, index: nat, entries: seq<Entry>)
    requires index <= |text| && SentenceWeighed(q, text, entries, index + |word|, if word == "" then value else 2)
    ensures SentenceWeighed(q, text, WeighWord(q, word, value, index) + entries, index, value)
  {
    hide Matches, Blank;
    if word == "" {
      assert [] + entries == entries;
      hide Weighs;
    } else {
      EntryInFront(q, text, WeighWord(q, word, value, index)[0], entries, value);
    }
  }

  lemma BlankAfterWord(text: string, index: nat, word: string, rest: string)
    requires index + |word + " " + rest| <= |text| && text[index..index + |word + " " + rest|] == word + " " + rest
    ensures index + |word| < |text| && text[index + |word|] == ' '
  {
    assert text[index..index + |word + " " + rest|][|word|] == (word + " " + rest)[|word|] == ' ';
  }

  lemma NoWordsWeighed(q: Query, text: string, from: nat, first: nat)
    ensures SentenceWeighed(q, text, [], from, first)
  {
  }

  lemma {:induction false} WordsWeighed(q: Query, text: string, words: seq<string>, value: nat, index: nat)
    requires |words| > 0 && index + |Join(words, ' ')| <= |text|
    requires text[index..index + |Join(words, ' ')|] == Join(words, ' ')
    ensures SentenceWeighed(q, text, WeighWords(q, words, value, index), index, value)
  {
    hide WeighWord, SentenceWeighed;
    var next := if words[0] == "" then value else WORD_WEIGHT;
    var tail := WeighWords(q, words[1..], next, index + |words[0]| + 1);
    if |words| > 1 {
      var rest := Join(words[1..], ' ');
      PartsOfText(text, index, words[0], " ", rest);
      BlankAfterWord(text, index, words[0], rest);
      WordsWeighed(q, text, words[1..], next, index + |words[0]| + 1);
      BlankInFront(q, text, tail, index + |words[0]|, next);
    } else {
      NoWordsWeighed(q, text, index + |words[0]|, next);
      assert words[1..] == [] && tail == [];
    }
    WordInFront(q, text, words[0], value, index, tail);
  }

  /** A word begins a sentence where a full stop stands between it and the word before. */
  predicate Begins(text: string, entries: seq<Entry>, i: nat)
    requires i < |entries|
  {
    i == 0 || exists k :: entries[i - 1].index + |entries[i - 1].word| <= k < entries[i].index && k < |text|
                          && text[k] == '.'
  }

  /** Matching words weigh 40, and of the others the first ones of their sentences 8 and all later ones 2. */
  predicate BodyWeighed(q: Query, text: string, entries: seq<Entry>) {
    forall i :: 0 <= i < |entries| ==> Weighs(q, entries[i], if Begins(text, entries, i) then 8 else 2)
  }

  lemma SentenceInFront(q: Query, text: string, a: seq<Entry>, b: seq<Entry>, from: nat, mid: nat)
    requires SentenceWeighed(q, text, a, from, 8) && BodyWeighed(q, text, b)
    requires Within(a, from, mid) && (b != [] ==> mid < b[0].index && mid < |text| && text[mid] == '.')
    ensures BodyWeighed(q, text, a + b)
  {
    hide Weighs;
    var c := a + b;
    forall i | 0 <= i < |c| ensures Weighs(q, c[i], if Begins(text, c, i) then 8 else 2) {
      if i < |a| {
        assert c[i] == a[i] && (i > 0 ==> c[i - 1] == a[i - 1]);
      } else {
        assert c[i] == b[i - |a|] && Begins(text, b, i - |a|) == Begins(text, c, i);
      }
    }
  }

  lemma StopAfterSentence(text: string, index: nat, sentence: string, rest: string)
    requires index + |sentence + ". " + rest| <= |text|
    requires text[index..index + |sentence + ". " + rest|] == sentence + ". " + rest
    ensures index + |sentence| < |text| && text[index + |sentence|] == '.'
  {
    assert text[index..index + |sentence + ". " + rest|][|sentence|] == (sentence + ". " + rest)[|sentence|] == '.';
  }

  lemma NothingWeighs(q: Query, text: string)
    ensures BodyWeighed(q, text, [])
  {
  }

  lemma FirstWithin(entries: seq<Entry>, lo: nat, hi: nat)
    requires Within(entries, lo, hi)
    ensures entries != [] ==> lo <= entries[0].index
  {
  }

  lemma {:induction false} SentencesWeighed(q: Query, text: string, sentences: seq<string>, index: nat)
    requires |sentences| > 0 && index + |JoinSentences(sentences)| == |text|
    requires text[index..index + |JoinSentences(sentences)|] == JoinSentences(sentences)
    ensures BodyWeighed(q, text, WeighSentences(q, sentences, index))
  {
    hide WeighWords, Located, Within, Split, Join, SentenceWeighed, BodyWeighed;
    var words := Split(sentences[0], ' ');
    JoinOfSplit(sentences[0], ' ');
    var head := WeighWords(q, words, FIRST_WORD_WEIGHT, index);
    var next := index + |sentences[0]| + 2;
    var tail := WeighSentences(q, sentences[1..], next);
    assert WeighSentences(q, sentences, index) == head + tail;
    if |sentences| == 1 {
      assert sentences[1..] == [] && tail == [];
      WordsLocated(q, text, words, FIRST_WORD_WEIGHT, index);
      WordsWeighed(q, text, words, FIRST_WORD_WEIGHT, index);
      NothingWeighs(q, text);
    } else {
      var rest := JoinSentences(sentences[1..]);
      PartsOfText(text, index, sentences[0], ". ", rest);
      StopAfterSentence(text, index, sentences[0], rest);
      WordsLocated(q, text, words, FIRST_WORD_WEIGHT, index);
      WordsWeighed(q, text, words, FIRST_WORD_WEIGHT, index);
      SentencesLocated(q, text, sentences[1..], next);
      SentencesWeighed(q, text, sentences[1..], next);
      FirstWithin(tail, next, |text|);
    }
    SentenceInFront(q, text, head, tail, index, index + |sentences[0]|);
  }

  /**
   In every text a word weighs 40 if it matches a search term; otherwise it weighs 8 if it is the first of the
   text or a full stop stands between it and the word before, and 2 if not.
   */
  lemma WeightsByPlace(q: Query, lower: string)
    ensures forall i :: 0 <= i < |Weigh(q, lower)| ==>
              Weigh(q, lower)[i].weight == if Matches(q, Weigh(q, lower)[i].word) then 40
                                           else if Begins(lower, Weigh(q, lower), i) then 8 else 2
  {
    JoinOfSentences(lower);
    assert lower[0..0 + |lower|] == lower;
    SentencesWeighed(q, lower, SplitSentences(lower), 0);
    hide WeighSentences, SplitSentences, Begins, Matches;
  }

  // ---------------------------------------------------------------------------------------------
  // The window

  function Sum(entries: seq<Entry>, from: nat, to: nat): nat
    requires from <= to <= |entries|
  {
    if from == to then 0 else Sum(entries, from, to - 1) + entries[to - 1].weight
  }

  lemma {:induction false} SumSlides(entries: seq<Entry>, from: nat, to: nat)
    requires from < to <= |entries|
    ensures Sum(entries, from, to) == entries[from].weight + Sum(entries, from + 1, to)
  {
    if from + 1 < to { SumSlides(entries, from, to - 1); }
  }

  lemma {:induction false} SumPositive(entries: seq<Entry>, from: nat, to: nat)
    requires from < to <= |entries| && forall i :: 0 <= i < |entries| ==> entries[i].weight > 0
    ensures Sum(entries, from, to) > 0
  {
  }

  function WindowWeight(entries: seq<Entry>, size: nat, k: nat): nat
    requires k + size <= |entries|
  {
    Sum(entries, k, k + size)
  }

  /** The running sums are the direct sums. */
  method WindowWeights(entries: seq<Entry>, size: nat) returns (sums: seq<nat>)
    requires size <= |entries|
    ensures |sums| == |entries| - size + 1
    ensures forall k :: 0 <= k < |sums| ==> sums[k] == WindowWeight(entries, size, k)
  {
    var current: int := 0;
    for n := 0 to size
      invariant current == Sum(entries, 0, n)
    {
      current := current + entries[n].weight;
    }
    sums := [current];
    for n := 0 to |entries| - size
      invariant |sums| == n + 1 && current == Sum(entries, n, n + size)
      invariant forall k :: 0 <= k <= n ==> sums[k] == WindowWeight(entries, size, k)
    {
      SumSlides(entries, n, n + size + 1);
      current := current - entries[n].weight;
      current := current + entries[n + size].weight;
      sums := sums + [current];
    }
  }

  /** The last window of greatest total weight. */
  ghost predicate LastHeaviest(entries: seq<Entry>, size: nat, best: nat) {
    && best + size <= |entries|
    && forall k :: 0 <= k <= |entries| - size ==>
         && WindowWeight(entries, size, k) <= WindowWeight(entries, size, best)
         && (best < k ==> WindowWeight(entries, size, k) < WindowWeight(entries, size, best))
  }

  method ChooseWindow(entries: seq<Entry>, size: nat, found: bool) returns (best: nat)
    requires size <= |entries| && forall i :: 0 <= i < |entries| ==> entries[i].weight > 0
    ensures best + size <= |entries|
    ensures if found && size > 0 then LastHeaviest(entries, size, best) else best == 0
  {
    var sums := WindowWeights(entries, size);
    best := 0;
    if found {
      var maxSum := 0;
      var i := |sums| - 1;
      while i >= 0
        invariant -1 <= i < |sums|
        invariant if size == 0 || i == |sums| - 1 then maxSum == 0 && best == 0
                  else i < best < |sums| && sums[best] == maxSum
        invariant size > 0 ==> forall k :: i < k < |sums| ==> sums[k] <= maxSum && (best < k ==> sums[k] < maxSum)
      {
        if size > 0 { SumPositive(entries, i, i + size); }
        if sums[i] > maxSum {
          maxSum := sums[i];
          best := i;
        }
        i := i - 1;
      }
      assert forall k :: 0 <= k <= |entries| - size ==> sums[k] == WindowWeight(entries, size, k);
    }
  }

  // ---------------------------------------------------------------------------------------------
  // The output

  datatype Piece = Plain(text: string) | OpenTag | CloseTag

  function Render(pieces: seq<Piece>): string {
    if pieces == [] then ""
    else
      (match pieces[0]
       case Plain(text) => text
       case OpenTag => "<em>"
       case CloseTag => "</em>")
      + Render(pieces[1..])
  }

  /** Deletes the tags from a rendered teaser. */
  function DeleteTags(s: string): string {
    if s == "" then ""
    else if "<em>" <= s then DeleteTags(s[4..])
    else if "</em>" <= s then DeleteTags(s[5..])
    else [s[0]] + DeleteTags(s[1..])
  }

  function Texts(pieces: seq<Piece>): string {
    if pieces == [] then ""
    else (if pieces[0].Plain? then pieces[0].text else "") + Texts(pieces[1..])
  }

  /** Every character of the text, and whether it stands between an opening and a closing tag. */
  function Emphasis(pieces: seq<Piece>, inside: bool): seq<(char, bool)> {
    if pieces == [] then []
    else
      match pieces[0]
      case Plain(text) => seq(|text|, k requires 0 <= k < |text| => (text[k], inside)) + Emphasis(pieces[1..], inside)
      case OpenTag => Emphasis(pieces[1..], true)
      case CloseTag => Emphasis(pieces[1..], false)
  }

  function Inside(pieces: seq<Piece>, inside: bool): bool {
    if pieces == [] then inside
    else Inside(pieces[1..], if pieces[0].Plain? then inside else pieces[0].OpenTag?)
  }

  lemma {:induction false} EmphasisConcat(a: seq<Piece>, b: seq<Piece>, inside: bool)
    ensures Emphasis(a + b, inside) == Emphasis(a, inside) + Emphasis(b, Inside(a, inside))
    ensures Inside(a + b, inside) == Inside(b, Inside(a, inside))
  {
    if a == [] {
      assert a + b == b;
    } else {
      assert (a + b)[1..] == a[1..] + b;
      EmphasisConcat(a[1..], b, if a[0].Plain? then inside else a[0].OpenTag?);
    }
  }

  lemma {:induction false} TextsConcat(a: seq<Piece>, b: seq<Piece>)
    ensures Texts(a + b) == Texts(a) + Texts(b)
  {
    if a == [] {
      assert a + b == b;
    } else {
      assert (a + b)[1..] == a[1..] + b;
      TextsConcat(a[1..], b);
    }
  }

  lemma {:induction false} DeleteTagsSkipsText(text: string, rest: string)
    requires '<' !in text
    ensures DeleteTags(text + rest) == text + DeleteTags(rest)
  {
    if text == "" {
      assert text + rest == rest;
    } else {
      assert (text + rest)[1..] == text[1..] + rest;
      assert "<em>"[0] == '<' && "</em>"[0] == '<';
      DeleteTagsSkipsText(text[1..], rest);
    }
  }

  /** Pages are escaped before they are marked, so that no text holds a '<'. */
  predicate Escaped(pieces: seq<Piece>) {
    forall i :: 0 <= i < |pieces| ==> pieces[i].Plain? ==> '<' !in pieces[i].text
  }

  lemma {:induction false} DeleteTagsOfRender(pieces: seq<Piece>)
    requires Escaped(pieces)
    ensures DeleteTags(Render(pieces)) == Texts(pieces)
  {
    if pieces != [] {
      var rest := Render(pieces[1..]);
      DeleteTagsOfRender(pieces[1..]);
      match pieces[0]
      case Plain(text) =>
        DeleteTagsSkipsText(text, rest);
      case OpenTag =>
        assert ("<em>" + rest)[4..] == rest;
      case CloseTag =>
        assert ("</em>" + rest)[5..] == rest;
        assert "</em>"[1] == '/' && "<em>"[1] == 'e';
    }
  }

  function End(entry: Entry): nat {
    entry.index + |entry.word|
  }

  /** Whether a position of the body lies in a word that matched a search term. */
  predicate InTerm(entries: seq<Entry>, position: int) {
    exists i :: 0 <= i < |entries| && entries[i].weight == TERM_WEIGHT && entries[i].index <= position < End(entries[i])
  }

  /** The body between two positions, with exactly the matched words emphasised. */
  function TermsEmphasised(body: string, entries: seq<Entry>, from: nat, to: nat): seq<(char, bool)>
    requires from <= to <= |body|
  {
    seq(to - from, k requires 0 <= k < to - from => (body[from + k], InTerm(entries, from + k)))
  }

  lemma {:induction false} LocatedInOrder(text: string, entries: seq<Entry>, i: nat, k: nat)
    requires Located(text, entries) && i < k < |entries|
    ensures End(entries[i]) < entries[k].index
  {
    if i + 1 < k { LocatedInOrder(text, entries, i, k - 1); }
  }

  function Gap(body: string, from: nat, to: nat): seq<Piece>
    requires to <= |body|
  {
    if from < to then [Plain(body[from..to])] else []
  }

  function MarkedWord(body: string, entry: Entry): seq<Piece>
    requires End(entry) <= |body|
  {
    var text := Plain(body[entry.index..End(entry)]);
    if entry.weight == TERM_WEIGHT then [OpenTag, text, CloseTag] else [text]
  }

  function Flagged(body: string, from: nat, to: nat, flag: bool): seq<(char, bool)>
    requires from <= to <= |body|
  {
    seq(to - from, k requires 0 <= k < to - from => (body[from + k], flag))
  }

  lemma GapMeaning(body: string, from: nat, to: nat)
    requires from <= to <= |body|
    ensures var gap := Gap(body, from, to);
            Texts(gap) == body[from..to] && !Inside(gap, false)
                && Emphasis(gap, false) == Flagged(body, from, to, false)
  {
    var gap := Gap(body, from, to);
    if from < to {
      assert gap[1..] == [] && gap[0].text == body[from..to];
    }
  }

  lemma MarkedWordMeaning(body: string, entry: Entry)
    requires End(entry) <= |body|
    ensures var word := MarkedWord(body, entry);
            && Texts(word) == body[entry.index..End(entry)] && !Inside(word, false)
            && Emphasis(word, false) == Flagged(body, entry.index, End(entry), entry.weight == TERM_WEIGHT)
  {
    var word := MarkedWord(body, entry);
    var text := Plain(body[entry.index..End(entry)]);
    if entry.weight == TERM_WEIGHT {
      var tail, last := [text, CloseTag], [CloseTag];
      assert word[1..] == tail && tail[1..] == last;
      assert Texts(last) == "" && !Inside(last, true) && Emphasis(last, true) == [];
      assert Texts(tail) == text.text && !Inside(tail, true);
      assert Emphasis(tail, true) == Flagged(body, entry.index, End(entry), true);
    } else {
      assert word[1..] == [];
    }
  }

  /** Between two neighbouring words nothing is matched; inside a word, all or nothing. */
  lemma TermAt(text: string, entries: seq<Entry>, i: nat, position: nat)
    requires Located(text, entries) && i < |entries|
    requires (if i == 0 then entries[0].index else End(entries[i - 1])) <= position < End(entries[i])
    ensures InTerm(entries, position) <==> entries[i].index <= position && entries[i].weight == TERM_WEIGHT
  {
    forall k | 0 <= k < |entries| && k != i && entries[k].index <= position < End(entries[k]) ensures false {
      if k > i { LocatedInOrder(text, entries, i, k); } else if k + 1 < i { LocatedInOrder(text, entries, k, i - 1); }
    }
  }

  lemma TermsNearWord(body: string, text: string, entries: seq<Entry>, i: nat, from: nat)
    requires Located(text, entries) && i < |entries| && |body| == |text|
    requires (if i == 0 then entries[0].index else End(entries[i - 1])) <= from <= entries[i].index
    ensures End(entries[i]) <= |body|
    ensures TermsEmphasised(body, entries, from, End(entries[i]))
         == Flagged(body, from, entries[i].index, false)
            + Flagged(body, entries[i].index, End(entries[i]), entries[i].weight == TERM_WEIGHT)
  {
    forall position: nat | from <= position < End(entries[i])
      ensures InTerm(entries, position) <==> entries[i].index <= position && entries[i].weight == TERM_WEIGHT
    {
      TermAt(text, entries, i, position);
    }
    hide InTerm, Located;
  }

  /** Where the output stands before the i-th word of a window that begins with the first one. */
  function Reached(entries: seq<Entry>, first: nat, i: nat): nat
    requires first <= i <= |entries| && first < |entries|
  {
    if i == first then entries[first].index else End(entries[i - 1])
  }

  lemma ReachedInBounds(lower: string, entries: seq<Entry>, first: nat, i: nat)
    requires Located(lower, entries) && first <= i <= |entries| && first < |entries|
    ensures entries[first].index <= Reached(entries, first, i) <= |lower|
    ensures i < |entries| ==> Reached(entries, first, i) <= entries[i].index
  {
    if first + 1 < i { LocatedInOrder(lower, entries, first, i - 1); }
  }

  predicate MarkedUpTo(body: string, entries: seq<Entry>, first: nat, to: nat, pieces: seq<Piece>)
    requires first < |entries| && entries[first].index <= to <= |body|
  {
    && Texts(pieces) == body[entries[first].index..to] && !Inside(pieces, false)
    && Emphasis(pieces, false) == TermsEmphasised(body, entries, entries[first].index, to)
    && ('<' !in body ==> Escaped(pieces))
  }

  lemma Slices(s: string, a: nat, b: nat, c: nat)
    requires a <= b <= c <= |s|
    ensures s[a..b] + s[b..c] == s[a..c]
  {
  }

  lemma MoreTexts(body: string, start: nat, from: nat, entry: Entry, pieces: seq<Piece>)
    requires start <= from <= entry.index && End(entry) <= |body| && Texts(pieces) == body[start..from]
    ensures Texts(pieces + (Gap(body, from, entry.index) + MarkedWord(body, entry))) == body[start..End(entry)]
  {
    var gap, word := Gap(body, from, entry.index), MarkedWord(body, entry);
    GapMeaning(body, from, entry.index);
    MarkedWordMeaning(body, entry);
    hide Texts, Gap, MarkedWord, Emphasis, Inside, Flagged;
    TextsConcat(gap, word);
    TextsConcat(pieces, gap + word);
    Slices(body, from, entry.index, End(entry));
    Slices(body, start, from, End(entry));
  }

  lemma TermsEmphasisedSplit(body: string, entries: seq<Entry>, from: nat, mid: nat, to: nat)
    requires from <= mid <= to <= |body|
    ensures TermsEmphasised(body, entries, from, mid) + TermsEmphasised(body, entries, mid, to)
         == TermsEmphasised(body, entries, from, to)
  {
    hide InTerm;
  }

  lemma MoreEmphasis(body: string, lower: string, entries: seq<Entry>, start: nat, i: nat, from: nat,
                     pieces: seq<Piece>)
    requires |lower| == |body| && Located(lower, entries) && i < |entries| && End(entries[i]) <= |body|
    requires start <= from <= entries[i].index && (if i == 0 then entries[0].index else End(entries[i - 1])) <= from
    requires Emphasis(pieces, false) == TermsEmphasised(body, entries, start, from) && !Inside(pieces, false)
    ensures var more := Gap(body, from, entries[i].index) + MarkedWord(body, entries[i]);
            && Emphasis(pieces + more, false) == TermsEmphasised(body, entries, start, End(entries[i]))
            && !Inside(pieces + more, false)
  {
    var gap, word := Gap(body, from, entries[i].index), MarkedWord(body, entries[i]);
    GapMeaning(body, from, entries[i].index);
    MarkedWordMeaning(body, entries[i]);
    hide Texts, Emphasis, Inside, Gap, MarkedWord, Located, TermsEmphasised, Flagged;
    TermsNearWord(body, lower, entries, i, from);
    EmphasisConcat(gap, word, false);
    EmphasisConcat(pieces, gap + word, false);
    TermsEmphasisedSplit(body, entries, start, from, End(entries[i]));
  }

  lemma EscapedMore(body: string, from: nat, entry: Entry, pieces: seq<Piece>)
    requires End(entry) <= |body| && ('<' !in body ==> Escaped(pieces))
    ensures '<' !in body ==> Escaped(pieces + (Gap(body, from, entry.index) + MarkedWord(body, entry)))
  {
  }

  lemma LocatedHere(lower: string, entries: seq<Entry>, i: nat)
    requires Located(lower, entries) && i < |entries|
    ensures End(entries[i]) <= |lower|
  {
  }

  lemma MarkedOneMore(body: string, lower: string, entries: seq<Entry>, first: nat, i: nat, pieces: seq<Piece>)
    requires |lower| == |body| && Located(lower, entries) && first <= i < |entries|
    requires var from := Reached(entries, first, i);
             entries[first].index <= from <= entries[i].index && MarkedUpTo(body, entries, first, from, pieces)
    ensures entries[first].index <= End(entries[i])
    ensures var more := Gap(body, Reached(entries, first, i), entries[i].index) + MarkedWord(body, entries[i]);
            MarkedUpTo(body, entries, first, End(entries[i]), pieces + more)
  {
    var start, from, mid, to := entries[first].index, Reached(entries, first, i), entries[i].index, End(entries[i]);
    LocatedHere(lower, entries, i);
    MoreTexts(body, start, from, entries[i], pieces);
    MoreEmphasis(body, lower, entries, start, i, from, pieces);
    EscapedMore(body, from, entries[i], pieces);
    hide Texts, Emphasis, Inside, Gap, MarkedWord, Located, TermsEmphasised, Escaped, Reached;
  }

  /** The pieces that one round of the output loop pushes. */
  method MarkWord(body: string, word: Entry, from: nat) returns (pieces: seq<Piece>, index: nat)
    requires End(word) <= |body| && from <= word.index
    ensures pieces == Gap(body, from, word.index) + MarkedWord(body, word) && index == End(word)
  {
    pieces := [];
    index := from;
    if index < word.index {
      pieces := pieces + [Plain(body[index..word.index])];
      index := word.index;
    }
    if word.weight == TERM_WEIGHT {
      pieces := pieces + [OpenTag];
    }
    index := word.index + |word.word|;
    pieces := pieces + [Plain(body[word.index..index])];
    if word.weight == TERM_WEIGHT {
      pieces := pieces + [CloseTag];
    }
  }

  lemma NothingMarked(body: string, entries: seq<Entry>, first: nat)
    requires first < |entries| && entries[first].index <= |body|
    ensures MarkedUpTo(body, entries, first, entries[first].index, [])
  {
  }

  /** The output loop. */
  method MarkWindow(body: string, lower: string, entries: seq<Entry>, first: nat, size: nat)
    returns (pieces: seq<Piece>)
    requires |lower| == |body| && Located(lower, entries) && first < |entries| && first + size <= |entries|
    ensures size == 0 ==> pieces == []
    ensures size > 0 ==>
              && entries[first].index <= End(entries[first + size - 1])
              && MarkedUpTo(body, entries, first, End(entries[first + size - 1]), pieces)
  {
    pieces := [];
    var index := entries[first].index;
    LocatedHere(lower, entries, first);
    NothingMarked(body, entries, first);
    hide MarkedUpTo, Located, Gap, MarkedWord;
    for i := first to first + size
      invariant index == Reached(entries, first, i) && (i == first ==> pieces == [])
      invariant entries[first].index <= index <= |body| && MarkedUpTo(body, entries, first, index, pieces)
    {
      ReachedInBounds(lower, entries, first, i);
      MarkedOneMore(body, lower, entries, first, i, pieces);
      LocatedHere(lower, entries, i);
      var more, next := MarkWord(body, entries[i], index);
      pieces := pieces + more;
      index := next;
    }
  }

  lemma {:induction false} WordsHeavyIffMatched(q: Query, words: seq<string>, value: nat, index: nat)
    requires value != TERM_WEIGHT
    ensures forall e :: e in WeighWords(q, words, value, index) ==> (e.weight == TERM_WEIGHT <==> Matches(q, e.word))
  {
    if words != [] {
      WordsHeavyIffMatched(q, words[1..], if words[0] == "" then value else WORD_WEIGHT, index + |words[0]| + 1);
    }
  }

  /** A word weighs 40 exactly when it matches a search term. */
  lemma {:induction false} HeavyIffMatched(q: Query, sentences: seq<string>, index: nat)
    ensures forall e :: e in WeighSentences(q, sentences, index) ==> (e.weight == 40 <==> Matches(q, e.word))
  {
    if sentences != [] {
      WordsHeavyIffMatched(q, Split(sentences[0], ' '), FIRST_WORD_WEIGHT, index);
      HeavyIffMatched(q, sentences[1..], index + |sentences[0]| + 2);
    }
  }

  /** A position of the body that lies in a word matching a search term. */
  predicate InMatch(q: Query, entries: seq<Entry>, position: int) {
    exists e :: e in entries && Matches(q, e.word) && e.index <= position < End(e)
  }

  function MatchesEmphasised(q: Query, body: string, entries: seq<Entry>, from: nat, to: nat): seq<(char, bool)>
    requires from <= to <= |body|
  {
    seq(to - from, k requires 0 <= k < to - from => (body[from + k], InMatch(q, entries, from + k)))
  }

  lemma InTermIffInMatch(q: Query, entries: seq<Entry>, position: int)
    requires forall e :: e in entries ==> (e.weight == TERM_WEIGHT <==> Matches(q, e.word))
    ensures InTerm(entries, position) <==> InMatch(q, entries, position)
  {
    hide Matches;
    if InTerm(entries, position) {
      var i :| 0 <= i < |entries| && entries[i].weight == TERM_WEIGHT && entries[i].index <= position < End(entries[i]);
      assert entries[i] in entries;
    }
  }

  lemma TermsAreMatches(q: Query, body: string, entries: seq<Entry>, from: nat, to: nat)
    requires from <= to <= |body|
    requires forall e :: e in entries ==> (e.weight == TERM_WEIGHT <==> Matches(q, e.word))
    ensures TermsEmphasised(body, entries, from, to) == MatchesEmphasised(q, body, entries, from, to)
  {
    forall position: int ensures InTerm(entries, position) <==> InMatch(q, entries, position) {
      InTermIffInMatch(q, entries, position);
    }
    hide Matches, InTerm, InMatch;
  }

  function Min(a: nat, b: nat): nat {
    if a < b then a else b
  }

  /** `escapeHTML`, which every body has gone through. */
  function EscapeHtml(s: string): (escaped: string)
    ensures '<' !in escaped
  {
    if s == "" then ""
    else
      (match s[0]
       case '&' => "&amp;"
       case '<' => "&lt;"
       case '>' => "&gt;"
       case '"' => "&#34;"
       case '\'' => "&#39;"
       case c => [c])
      + EscapeHtml(s[1..])
  }

  /** What a teaser shows: a window of words of the body. */
  ghost predicate Shows(q: Query, body: string, entries: seq<Entry>, first: nat, size: nat, teaser: string)
    requires 0 < size && first + size <= |entries|
    requires entries[first].index <= End(entries[first + size - 1]) <= |body|
  {
    var from, to := entries[first].index, End(entries[first + size - 1]);
    && ('<' !in body ==> DeleteTags(teaser) == body[from..to])
    && exists pieces :: teaser == Render(pieces) && Emphasis(pieces, false)
        == MatchesEmphasised(q, body, entries, from, to)
  }

  lemma RenderNothing()
    ensures Render([]) == ""
  {
  }

  lemma AllLocated(lower: string, entries: seq<Entry>)
    requires Located(lower, entries)
    ensures forall i :: 0 <= i < |entries| ==> entries[i].weight > 0 && End(entries[i]) <= |lower|
  {
  }

  lemma WeighHeavyIffMatched(q: Query, lower: string)
    ensures forall e :: e in Weigh(q, lower) ==> (e.weight == TERM_WEIGHT <==> Matches(q, e.word))
  {
    HeavyIffMatched(q, SplitSentences(lower), 0);
  }

  /**
   `makeTeaser`, for a lower-casing that keeps lengths: exactly the matching words stand between tags, and
   deleting the tags gives the body from the first word of the window to its last. The latter needs a
   body without '<', as the escaping of the caller leaves it.
   */
  method MakeTeaser(body: string, lower: string, q: Query, teaserWords: nat) returns (teaser: string, first: nat)
    requires |lower| == |body|
    ensures var entries, size := Weigh(q, lower), Min(|Weigh(q, lower)|, teaserWords);
            if entries == [] then teaser == body
            else if size == 0 then teaser == ""
            else
              && first + size <= |entries|
              && (if AnyMatch(q, entries) then LastHeaviest(entries, size, first) else first == 0)
              && entries[first].index <= End(entries[first + size - 1]) <= |body|
              && Shows(q, body, entries, first, size, teaser)
  {
    hide Weigh, Located, InTerm, MatchesEmphasised, TermsEmphasised, Matches, LastHeaviest;
    hide Texts, Render, Emphasis, DeleteTags, Inside, Escaped;
    var entries, found := WeighBody(q, lower);
    OffsetsAreTrue(q, lower);
    first := 0;
    if |entries| == 0 { return body, 0; }
    var size := if |entries| < teaserWords then |entries| else teaserWords;
    AllLocated(lower, entries);
    var best := ChooseWindow(entries, size, found);
    var pieces := MarkWindow(body, lower, entries, best, size);
    teaser := Render(pieces);
    if '<' !in body && size > 0 { DeleteTagsOfRender(pieces); }
    WeighHeavyIffMatched(q, lower);
    if size > 0 { TermsAreMatches(q, body, entries, entries[best].index, End(entries[best + size - 1])); }
    RenderNothing();
    first := best;
  }

  /**
   `formatSearchResult`, as far as the teaser goes: the body is escaped first, so the tags can always be
   deleted again.
   */
  method TeaserOfPage(page: string, lower: string, q: Query, teaserWords: nat) returns (teaser: string, first: nat)
    requires |lower| == |EscapeHtml(page)|
    ensures var body, entries, size := EscapeHtml(page), Weigh(q, lower), Min(|Weigh(q, lower)|, teaserWords);
            entries != [] && size > 0 ==>
              && first + size <= |entries|
              && entries[first].index <= End(entries[first + size - 1]) <= |body|
              && DeleteTags(teaser) == body[entries[first].index..End(entries[first + size - 1])]
  {
    hide Weigh, Render, DeleteTags, EscapeHtml, MatchesEmphasised, LastHeaviest, AnyMatch, Emphasis;
    teaser, first := MakeTeaser(EscapeHtml(page), lower, q, teaserWords);
  }
}
