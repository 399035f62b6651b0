/**
 What the worker answers to a Get at any point of any run: a key of its list, an error without a request to
 the provider because a lookup ended less than 300 s before, or the outcome of a new request.
 */
module JwksAnswers {
  import opened Wrappers
  import opened ClientJwks
  import Base64

  /** The first key of the list with the id. */
  predicate FirstWithId(keys: seq<Key>, kid: string, key: Key) {
    exists i :: 0 <= i < |keys| && keys[i] == key && key.kid == kid && forall j :: 0 <= j < i ==> keys[j].kid != kid
  }

  predicate Holds(keys: seq<Key>, kid: string) {
    exists key :: key in keys && key.kid == kid
  }

  lemma {:induction false} FindIsFirst(keys: seq<Key>, kid: string)
    ensures Find(keys, kid).Some? <==> Holds(keys, kid)
    ensures Find(keys, kid).Some? ==> FirstWithId(keys, kid, Find(keys, kid).value)
  {
    FindHasKid(keys, kid);
    if keys != [] {
      FindIsFirst(keys[1..], kid);
      if keys[0].kid == kid {
        assert keys[0] == Find(keys, kid).value;
      } else if Find(keys, kid).Some? {
        var key := Find(keys, kid).value;
        var i :| 0 <= i < |keys[1..]| && keys[1..][i] == key && forall j :: 0 <= j < i ==> keys[1..][j].kid != kid;
        assert keys[i + 1] == key;
        forall j | 0 <= j < i + 1 ensures keys[j].kid != kid {
          if j > 0 { assert keys[j] == keys[1..][j - 1]; }
        }
      }
    }
  }

  /** The filter keeps a key as it is, or with its decoded bytes, or drops it if they cannot be decoded. */
  lemma FilterOfOne(key: Key)
    ensures Filter([key]) ==
              if !key.alg.EdDSA? || key.x.None? then [key]
              else if Base64.UrlNoPadDecode(key.x.value).None? then []
              else [key.(xBytes := Base64.UrlNoPadDecode(key.x.value))]
  {
    hide Base64.UrlNoPadDecode;
    assert [key][1..] == [] && Filter([]) == [];
  }

  /** It treats every key on its own, and keeps their order. */
  lemma {:induction false} FilterKeyByKey(keys: seq<Key>, more: seq<Key>)
    ensures Filter(keys + more) == Filter(keys) + Filter(more)
  {
    hide Predecoded;
    if keys == [] {
      assert keys + more == more;
    } else {
      var first := if Predecoded(keys[0]).Some? then [Predecoded(keys[0]).value] else [];
      assert (keys + more)[1..] == keys[1..] + more;
      assert Filter(keys + more) == first + Filter(keys[1..] + more) && Filter(keys) == first + Filter(keys[1..]);
      hide Filter;
      FilterKeyByKey(keys[1..], more);
    }
  }

  // ---------------------------------------------------------------------------------------------
  // One Get

  /** What a search of the list is answered, if the search is the last word. */
  predicate Searched(keys: seq<Key>, kid: string, answer: Answer) {
    if Holds(keys, kid) then answer.Found? && answer.kid == kid && FirstWithId(keys, kid, answer.key)
    else answer == NotFound(kid)
  }

  /** The list after a request to the provider, if there is a provider to ask. */
  function ListAfter(s: State, fetch: Fetch): seq<Key> {
    if s.uri.Some? && fetch.Fetched? then Filter(fetch.keys) else s.keys
  }

  lemma UpdateMeans(s: State, fetch: Fetch, took: nat)
    ensures Updated(s, fetch, took).keys == ListAfter(s, fetch)
    ensures Updated(s, fetch, took).now == s.now + if s.uri.Some? then took else 0
    ensures Updated(s, fetch, took) == s.(keys := ListAfter(s, fetch), now := Updated(s, fetch, took).now,
                                          lastFetch := Updated(s, fetch, took).lastFetch)
    ensures Updated(s, fetch, took).lastFetch
         == if s.uri.Some? && fetch.Fetched? then Some(fetch.keys) else s.lastFetch
  {
    hide Filter;
  }

  /** How the Get for a key id of somebody who waits for the answer changes the worker's state. */
  predicate Answered(s: State, kid: string, fetch: Fetch, took: nat, u: State) {
    && |u.answers| == |s.answers| + 1 && u.answers[..|s.answers|] == s.answers
    && var answer := u.answers[|s.answers|];
       if Holds(s.keys, kid) then
         Searched(s.keys, kid, answer) && u == s.(answers := u.answers)
       else if kid in s.lookedUp && s.now - s.lookedUp[kid] < 300_000 then
         answer == RecentlyLookedUp(kid) && u == s.(answers := u.answers)
       else
         && u.keys == ListAfter(s, fetch) && Searched(u.keys, kid, answer)
         && u.now == (s.now + if s.uri.Some? then took else 0)
         && u.lookups == s.lookups + [Lookup(kid, s.now)] && u.lookedUp == s.lookedUp[kid := u.now]
  }

  lemma LookUpMeans(s: State, kid: string, fetch: Fetch, took: nat)
    ensures var t := LookUp(s, kid, fetch, took);
            && t.answers == s.answers && t.keys == ListAfter(s, fetch)
            && t.now == (s.now + if s.uri.Some? then took else 0)
            && t.lookups == s.lookups + [Lookup(kid, s.now)] && t.lookedUp == s.lookedUp[kid := t.now]
  {
    hide Updated, Filter;
    UpdateMeans(s.(lookups := s.lookups + [Lookup(kid, s.now)]), fetch, took);
  }

  lemma GetIsAnswered(s: State, kid: string, fetch: Fetch, took: nat)
    ensures Answered(s, kid, fetch, took, HandleGet(s, kid, true, fetch, took))
  {
    hide Find, Holds, FirstWithId, LookUp, ListAfter;
    FindIsFirst(s.keys, kid);
    LookUpMeans(s, kid, fetch, took);
    FindIsFirst(LookUp(s, kid, fetch, took).keys, kid);
  }

  // ---------------------------------------------------------------------------------------------
  // Over runs

  /** Step i makes the worker ask the provider for this key id. */
  predicate LooksUpAt(s: State, steps: seq<Step>, i: nat, kid: string) {
    && i < |steps|
    && Exec(s, steps, i + 1).lookups == Exec(s, steps, i).lookups + [Lookup(kid, Exec(s, steps, i).now)]
  }

  lemma HandleLooksUp(s: State, message: Message, fetch: Fetch, took: nat, kid: string)
    ensures var u := HandleMessage(s, message, fetch, took);
            && s.now <= u.now
            && if u.lookups == s.lookups + [Lookup(kid, s.now)] then kid in u.lookedUp && u.lookedUp[kid] == u.now
               else (kid in u.lookedUp <==> kid in s.lookedUp)
                    && (kid in u.lookedUp ==> u.lookedUp[kid] == s.lookedUp[kid])
  {
    hide Updated, Find, Recent, Pending, AllClosed, LookUp;
    UpdateMeans(s, fetch, took);
    if message.Get? { LookUpMeans(s, message.kid, fetch, took); }
    var u := HandleMessage(s, message, fetch, took);
    if u.lookups == s.lookups + [Lookup(kid, s.now)] { assert u.lookups[|s.lookups|] == Lookup(kid, s.now); }
    hide ListAfter;
  }

  lemma StepLooksUp(s: State, step: Step, kid: string)
    ensures var u := Apply(s, step);
            && s.now <= u.now
            && if u.lookups == s.lookups + [Lookup(kid, s.now)] then kid in u.lookedUp && u.lookedUp[kid] == u.now
               else (kid in u.lookedUp <==> kid in s.lookedUp)
                    && (kid in u.lookedUp ==> u.lookedUp[kid] == s.lookedUp[kid])
  {
    hide HandleMessage, Pending, AllClosed;
    if step.Handle? && s.alive && s.mailbox != [] {
      HandleLooksUp(s.(mailbox := s.mailbox[1..]), s.mailbox[0], step.fetch, step.took, kid);
    }
  }

  /** The time kept for a key id is the end of the last lookup for it. */
  predicate KeepsLastLookup(s: State, steps: seq<Step>, n: nat, kid: string)
    requires n <= |steps|
  {
    var t := Exec(s, steps, n);
    && (kid in t.lookedUp ==> t.lookedUp[kid] <= t.now)
    && (kid in t.lookedUp ==>
          exists i: nat :: i < n && LooksUpAt(s, steps, i, kid) && t.lookedUp[kid] == Exec(s, steps, i + 1).now)
    && forall i: nat :: i < n && LooksUpAt(s, steps, i, kid) ==>
         kid in t.lookedUp && Exec(s, steps, i + 1).now <= t.lookedUp[kid]
  }

  lemma LooksUpOrNot(s: State, steps: seq<Step>, n: nat, kid: string)
    requires n < |steps|
    ensures var t, u := Exec(s, steps, n), Exec(s, steps, n + 1);
            && t.now <= u.now
            && (LooksUpAt(s, steps, n, kid) ==> kid in u.lookedUp && u.lookedUp[kid] == u.now)
            && (!LooksUpAt(s, steps, n, kid) ==>
                  && (kid in u.lookedUp <==> kid in t.lookedUp)
                  && (kid in u.lookedUp ==> u.lookedUp[kid] == t.lookedUp[kid]))
  {
    assert Exec(s, steps, n + 1) == Apply(Exec(s, steps, n), steps[n]);
    hide Exec, Apply;
    StepLooksUp(Exec(s, steps, n), steps[n], kid);
  }

  lemma NextLookupKept(s: State, steps: seq<Step>, n: nat, kid: string)
    requires n < |steps| && KeepsLastLookup(s, steps, n, kid)
    ensures KeepsLastLookup(s, steps, n + 1, kid)
  {
    hide Exec, LooksUpAt;
    LooksUpOrNot(s, steps, n, kid);
    var t, u := Exec(s, steps, n), Exec(s, steps, n + 1);
    if kid in u.lookedUp && !LooksUpAt(s, steps, n, kid) {
      var i: nat :| i < n && LooksUpAt(s, steps, i, kid) && t.lookedUp[kid] == Exec(s, steps, i + 1).now;
      assert i < n + 1;
    }
  }

  lemma {:induction false} LastLookupKept(s: State, steps: seq<Step>, n: nat, kid: string)
    requires Init(s) && n <= |steps|
    ensures KeepsLastLookup(s, steps, n, kid)
  {
    if n != 0 {
      hide KeepsLastLookup;
      LastLookupKept(s, steps, n - 1, kid);
      NextLookupKept(s, steps, n - 1, kid);
    }
  }

  /** A lookup for the key id has ended less than 300 s ago. */
  predicate LookedUpRecently(s: State, steps: seq<Step>, n: nat, kid: string)
    requires n <= |steps|
  {
    exists i: nat :: i < n && LooksUpAt(s, steps, i, kid)
                     && Exec(s, steps, n).now - Exec(s, steps, i + 1).now < 300_000
  }

  lemma RecentIffLookedUp(s: State, steps: seq<Step>, n: nat, kid: string)
    requires Init(s) && n <= |steps|
    ensures var t := Exec(s, steps, n);
            kid in t.lookedUp && t.now - t.lookedUp[kid] < 300_000 <==> LookedUpRecently(s, steps, n, kid)
  {
    hide Exec, LooksUpAt;
    LastLookupKept(s, steps, n, kid);
  }

  /**
   At any point of any run, when the worker takes up the Get of somebody who waits, it gives exactly one answer. If
   the list holds a key with that id, it is the first of them, and the provider is not asked. Otherwise the answer is
   that the id has been looked up recently, again without a request, exactly when a lookup for it has ended less
   than 300 s before. Otherwise the provider is asked, and the answer is the first key with that id in the list
   after that, or that there is none.
   */
  lemma GetAnswers(s: State, steps: seq<Step>, n: nat, kid: string)
    requires Init(s) && n < |steps| && steps[n].Handle? && Exec(s, steps, n).alive
    requires Exec(s, steps, n).mailbox != [] && Exec(s, steps, n).mailbox[0] == Get(kid, true)
    ensures var t, u := Exec(s, steps, n), Exec(s, steps, n + 1);
            && |u.answers| == |t.answers| + 1 && u.answers[..|t.answers|] == t.answers
            && var answer := u.answers[|t.answers|];
               var asked := LooksUpAt(s, steps, n, kid);
               var held := exists key :: key in t.keys && key.kid == kid;
               var later := exists key :: key in u.keys && key.kid == kid;
               && (asked <==> !held && !LookedUpRecently(s, steps, n, kid))
               && (answer.RecentlyLookedUp? <==> !held && LookedUpRecently(s, steps, n, kid))
               && (answer.Found? <==> held || (asked && later))
               && (answer.NotFound? <==> asked && !later)
               && answer.kid == kid && (answer.Found? ==> FirstWithId(u.keys, kid, answer.key))
               && (!asked ==> u.keys == t.keys && u.now == t.now && u.lookups == t.lookups && u.lookedUp == t.lookedUp)
               && (asked ==> u.keys == ListAfter(t, steps[n].fetch))
  {
    var t := Exec(s, steps, n);
    RecentIffLookedUp(s, steps, n, kid);
    GetIsAnswered(t.(mailbox := t.mailbox[1..]), kid, steps[n].fetch, steps[n].took);
    assert Exec(s, steps, n + 1) == HandleGet(t.(mailbox := t.mailbox[1..]), kid, true, steps[n].fetch, steps[n].took);
    hide Exec, Apply, HandleGet, LookedUpRecently, FirstWithId, ListAfter, Init;
  }

  /**
   An Update replaces the list by the filtered list of the provider, exactly when a provider is known and answers;
   a new provider is taken over at once, and an Update put at the end of the mailbox.
   */
  lemma UpdatesReplaceList(s: State, steps: seq<Step>, n: nat)
    requires n < |steps| && steps[n].Handle? && Exec(s, steps, n).alive && Exec(s, steps, n).mailbox != []
    ensures var t, u := Exec(s, steps, n), Exec(s, steps, n + 1);
            && (t.mailbox[0].Update? ==>
                  && u.keys == ListAfter(t, steps[n].fetch) && u.mailbox == t.mailbox[1..]
                  && u.uri == t.uri && u.answers == t.answers && u.lookedUp == t.lookedUp)
            && (t.mailbox[0].NewUri? ==>
                  u == t.(uri := Some(t.mailbox[0].uri), mailbox := t.mailbox[1..] + [Update]))
  {
    var t := Exec(s, steps, n);
    assert Exec(s, steps, n + 1) == Apply(t, steps[n]);
    UpdateMeans(t.(mailbox := t.mailbox[1..]), steps[n].fetch, steps[n].took);
    hide Exec, HandleGet, Updated, Filter;
  }
}
