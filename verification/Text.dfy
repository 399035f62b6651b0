/** Splitting text, as `split` does it in Rust and JavaScript. */
module Text {
  /** Splits at every occurrence of a character. */
  function Split(s: string, sep: char): (parts: seq<string>)
    ensures |parts| > 0
  {
    if s == "" then [""]
    else
      var rest := Split(s[1..], sep);
      if s[0] == sep then [""] + rest else [[s[0]] + rest[0]] + rest[1..]
  }

  function Join(parts: seq<string>, sep: char): string
    requires |parts| > 0
  {
    if |parts| == 1 then parts[0] else parts[0] + [sep] + Join(parts[1..], sep)
  }

  /** Splits at every ". ", from the left. */
  function SplitSentences(s: string): (parts: seq<string>)
    ensures |parts| > 0
  {
    if |s| < 2 then [s]
    else if s[0] == '.' && s[1] == ' ' then [""] + SplitSentences(s[2..])
    else
      var rest := SplitSentences(s[1..]);
      [[s[0]] + rest[0]] + rest[1..]
  }

  function JoinSentences(parts: seq<string>): string
    requires |parts| > 0
  {
    if |parts| == 1 then parts[0] else parts[0] + ". " + JoinSentences(parts[1..])
  }

  predicate OccursAt(s: string, t: string, i: nat) {
    i + |t| <= |s| && s[i..i + |t|] == t
  }

  predicate Contains(s: string, t: string) {
    exists i :: 0 <= i <= |s| && OccursAt(s, t, i)
  }

  lemma {:induction false} JoinOfSplit(s: string, sep: char)
    ensures Join(Split(s, sep), sep) == s
    ensures forall i :: 0 <= i < |Split(s, sep)| ==> sep !in Split(s, sep)[i]
  {
    if s != "" {
      JoinOfSplit(s[1..], sep);
      var rest := Split(s[1..], sep);
      if s[0] == sep {
        assert ([""] + rest)[1..] == rest;
      } else {
        var parts := [[s[0]] + rest[0]] + rest[1..];
        assert parts[1..] == rest[1..];
        assert Join(parts, sep) == [s[0]] + Join(rest, sep);
      }
    }
  }

  lemma Regroup(c: char, first: string, rest: string)
    ensures [c] + first + ". " + rest == [c] + (first + ". " + rest)
  {
  }

  /** A character in front of the first sentence is one in front of the text. */
  lemma JoinOfLongerFirst(c: char, parts: seq<string>)
    requires |parts| > 0
    ensures JoinSentences([[c] + parts[0]] + parts[1..]) == [c] + JoinSentences(parts)
  {
    assert ([[c] + parts[0]] + parts[1..])[1..] == parts[1..];
    if |parts| > 1 { Regroup(c, parts[0], JoinSentences(parts[1..])); }
  }

  lemma {:induction false} JoinOfSentences(s: string)
    ensures JoinSentences(SplitSentences(s)) == s
  {
    if |s| >= 2 {
      if s[0] == '.' && s[1] == ' ' {
        JoinOfSentences(s[2..]);
        var rest := SplitSentences(s[2..]);
        assert ([""] + rest)[1..] == rest;
        assert s == ". " + s[2..];
      } else {
        JoinOfSentences(s[1..]);
        JoinOfLongerFirst(s[0], SplitSentences(s[1..]));
        assert s == [s[0]] + s[1..];
      }
    }
  }

  lemma {:induction false} SplitWithoutSeparator(s: string, sep: char)
    requires sep !in s
    ensures Split(s, sep) == [s]
  {
    if s != "" {
      SplitWithoutSeparator(s[1..], sep);
      assert s == [s[0]] + s[1..];
      assert [s[1..]][1..] == [];
    }
  }

  lemma {:induction false} PartsHaveNoOtherChars(s: string, sep: char, c: char)
    requires c !in s
    ensures forall i :: 0 <= i < |Split(s, sep)| ==> c !in Split(s, sep)[i]
  {
    if s != "" { PartsHaveNoOtherChars(s[1..], sep, c); }
  }

  lemma OccursInFirst(a: string, sep: char, b: string, t: string, i: nat)
    requires sep !in t && i <= |a| && OccursAt(a + [sep] + b, t, i)
    ensures OccursAt(a, t, i)
  {
    var s := a + [sep] + b;
    assert forall k :: 0 <= k < |t| ==> s[i + k] == s[i..i + |t|][k] == t[k];
    assert s[|a|] == sep;
    assert i + |t| <= |a|;
    assert a[i..i + |t|] == s[i..i + |t|];
  }

  lemma OccursInRest(a: string, sep: char, b: string, t: string, i: nat)
    requires i > |a| && OccursAt(a + [sep] + b, t, i)
    ensures OccursAt(b, t, i - |a| - 1)
  {
    var s := a + [sep] + b;
    assert b[i - |a| - 1..i - |a| - 1 + |t|] == s[i..i + |t|];
  }

  lemma ContainedInLonger(a: string, b: string, t: string, i: nat)
    requires OccursAt(b, t, i)
    ensures OccursAt(a + b, t, |a| + i)
  {
    assert (a + b)[|a| + i..|a| + i + |t|] == b[i..i + |t|];
  }

  lemma ContainedInPrefix(a: string, b: string, t: string, i: nat)
    requires OccursAt(a, t, i)
    ensures OccursAt(a + b, t, i)
  {
    assert (a + b)[i..i + |t|] == a[i..i + |t|];
  }

  lemma ContainedInTwo(a: string, sep: char, b: string, t: string)
    requires sep !in t
    ensures Contains(a + [sep] + b, t) <==> Contains(a, t) || Contains(b, t)
  {
    hide OccursAt;
    if i :| 0 <= i <= |a + [sep] + b| && OccursAt(a + [sep] + b, t, i) {
      if i <= |a| { OccursInFirst(a, sep, b, t, i); } else { OccursInRest(a, sep, b, t, i); }
    }
    if i :| 0 <= i <= |a| && OccursAt(a, t, i) {
      ContainedInPrefix(a, [sep] + b, t, i);
      assert a + ([sep] + b) == a + [sep] + b;
    }
    if i :| 0 <= i <= |b| && OccursAt(b, t, i) {
      ContainedInLonger(a + [sep], b, t, i);
    }
  }

  /** A text without the separator occurs in a joined text exactly when it occurs in one of the parts. */
  lemma {:induction false} ContainedInJoin(parts: seq<string>, sep: char, t: string)
    requires |parts| > 0 && sep !in t
    ensures Contains(Join(parts, sep), t) <==> exists k :: 0 <= k < |parts| && Contains(parts[k], t)
  {
    hide OccursAt;
    if |parts| > 1 {
      var a, b := parts[0], Join(parts[1..], sep);
      ContainedInJoin(parts[1..], sep, t);
      ContainedInTwo(a, sep, b, t);
      assert forall k :: 0 < k < |parts| ==> parts[k] == parts[1..][k - 1];
      assert forall k :: 0 <= k < |parts| - 1 ==> parts[1..][k] == parts[k + 1];
    } else {
      assert Join(parts, sep) == parts[0];
    }
  }
}
