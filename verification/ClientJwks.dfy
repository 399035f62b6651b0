/**
 The worker of the client library that keeps the provider's public keys: a mailbox of messages handled
 one by one, a key list, and a timed cache of key ids that were looked up in vain. Times are
 milliseconds; the answers of the provider come from the environment.
 */
module ClientJwks {
  import opened Wrappers
  import Base64

  const LIFESPAN: nat := 300_000

  datatype Alg = RS256 | RS384 | RS512 | EdDSA

  datatype Key = Key(alg: Alg, kid: string, x: Option<string>, xBytes: Option<seq<Base64.Byte>>)

  /** Whoever asks for a key may have stopped waiting for it by the time the message is handled. */
  datatype Message = Get(kid: string, waiting: bool) | Update | NewUri(uri: string)

  /** A request to the provider: it fails in some way, or brings a list of keys. */
  datatype Fetch = Failed | Fetched(keys: seq<Key>)

  /** `Closed` is the error of an asker whose channel, or the mailbox, is gone with the worker. */
  datatype Answer =
    | Found(kid: string, key: Key) | RecentlyLookedUp(kid: string) | NotFound(kid: string) | Closed(kid: string)

  /** An update that a Get has triggered. */
  datatype Lookup = Lookup(kid: string, at: int)

  datatype State = State(
    mailbox: seq<Message>,
    uri: Option<string>,
    keys: seq<Key>,
    lookedUp: map<string, int>,
    now: int,
    alive: bool,
    asked: seq<string>,              // history: the key ids of all askers that wait for their answer
    answers: seq<Answer>,            // history
    lastFetch: Option<seq<Key>>,     // history: what the last successful request brought
    lookups: seq<Lookup>)            // history

  datatype Step =
    | Send(message: Message)
    | Handle(fetch: Fetch, took: nat)
    | Tick(millis: nat)

  /** The key as it is kept, or nothing if its bytes cannot be decoded. */
  function Predecoded(key: Key): Option<Key> {
    if key.alg.EdDSA? && key.x.Some? then
      match Base64.UrlNoPadDecode(key.x.value)
      case None => None
      case Some(bytes) => Some(key.(xBytes := Some(bytes)))
    else Some(key)
  }

  function Filter(keys: seq<Key>): seq<Key> {
    if keys == [] then []
    else (if Predecoded(keys[0]).Some? then [Predecoded(keys[0]).value] else []) + Filter(keys[1..])
  }

  function Find(keys: seq<Key>, kid: string): Option<Key> {
    if keys == [] then None
    else if keys[0].kid == kid then Some(keys[0])
    else Find(keys[1..], kid)
  }

  /** The `update` closure. */
  function Updated(s: State, fetch: Fetch, took: nat): State {
    if s.uri.None? then s
    else
      var t := s.(now := s.now + took);
      match fetch
      case Failed => t
      case Fetched(keys) => t.(keys := Filter(keys), lastFetch := Some(keys))
  }

  /** The key ids of the askers in a mailbox that wait for their answer. */
  function Pending(mailbox: seq<Message>): seq<string> {
    if mailbox == [] then []
    else (if mailbox[0].Get? && mailbox[0].waiting then [mailbox[0].kid] else []) + Pending(mailbox[1..])
  }

  function AllClosed(kids: seq<string>): seq<Answer> {
    seq(|kids|, i requires 0 <= i < |kids| => Closed(kids[i]))
  }

  /** Answering somebody who has stopped waiting makes the worker panic, and its mailbox is dropped with it. */
  function Reply(s: State, answer: Answer, waiting: bool): State {
    if waiting then s.(answers := s.answers + [answer])
    else s.(alive := false, mailbox := [], answers := s.answers + AllClosed(Pending(s.mailbox)))
  }

  predicate Recent(s: State, kid: string) {
    kid in s.lookedUp && s.now - s.lookedUp[kid] < LIFESPAN
  }

  /** What happens when the key is not there and has not been looked up recently. */
  function LookUp(s: State, kid: string, fetch: Fetch, took: nat): State {
    var t := Updated(s.(lookups := s.lookups + [Lookup(kid, s.now)]), fetch, took);
    t.(lookedUp := t.lookedUp[kid := t.now])
  }

  function FirstAnswer(s: State, kid: string): Option<Answer> {
    match Find(s.keys, kid)
    case Some(key) => Some(Found(kid, key))
    case None => if Recent(s, kid) then Some(RecentlyLookedUp(kid)) else None
  }

  function SecondAnswer(s: State, kid: string): Answer {
    match Find(s.keys, kid)
    case Some(key) => Found(kid, key)
    case None => NotFound(kid)
  }

  function HandleGet(s: State, kid: string, waiting: bool, fetch: Fetch, took: nat): State {
    match FirstAnswer(s, kid)
    case Some(answer) => Reply(s, answer, waiting)
    case None =>
      var t := LookUp(s, kid, fetch, took);
      Reply(t, SecondAnswer(t, kid), waiting)
  }

  function HandleMessage(s: State, message: Message, fetch: Fetch, took: nat): State {
    match message
    case Get(kid, waiting) => HandleGet(s, kid, waiting, fetch, took)
    case Update => Updated(s, fetch, took)
    case NewUri(uri) => s.(uri := Some(uri), mailbox := s.mailbox + [Update])
  }

  function Apply(s: State, step: Step): State {
    match step
    case Send(message) =>
      var kids := Pending([message]);
      if s.alive then s.(mailbox := s.mailbox + [message], asked := s.asked + kids)
      else s.(asked := s.asked + kids, answers := s.answers + AllClosed(kids))
    case Handle(fetch, took) =>
      if !s.alive || s.mailbox == [] then s
      else HandleMessage(s.(mailbox := s.mailbox[1..]), s.mailbox[0], fetch, took)
    case Tick(millis) => s.(now := s.now + millis)
  }

  /** The state after the first n steps of a run. */
  function Exec(s: State, steps: seq<Step>, n: nat): State
    requires n <= |steps|
  {
    if n == 0 then s else Apply(Exec(s, steps, n - 1), steps[n - 1])
  }

  predicate Init(s: State) {
    && s.mailbox == [] && s.uri == None && s.keys == [] && s.lookedUp == map[] && s.alive
    && s.asked == [] && s.answers == [] && s.lastFetch == None && s.lookups == []
  }

  // ---------------------------------------------------------------------------------------------
  // The worker

  lemma OneMessage(message: Message)
    ensures Pending([message]) == if message.Get? && message.waiting then [message.kid] else []
    ensures AllClosed(Pending([message])) == if message.Get? && message.waiting then [Closed(message.kid)] else []
  {
    assert [message][1..] == [];
  }

  class JwksHandler {
    var mailbox: seq<Message>
    var uri: Option<string>
    var keys: seq<Key>
    var lookedUp: map<string, int>
    var now: int
    var alive: bool
    ghost var asked: seq<string>
    var answers: seq<Answer>
    ghost var lastFetch: Option<seq<Key>>
    ghost var lookups: seq<Lookup>

    ghost function Contents(): State
      reads this
    {
      State(mailbox, uri, keys, lookedUp, now, alive, asked, answers, lastFetch, lookups)
    }

    /** The search loop over the key list. */
    method FindKey(kid: string) returns (key: Option<Key>)
      ensures key == Find(keys, kid)
    {
      var i := 0;
      while i < |keys|
        invariant 0 <= i <= |keys| && Find(keys, kid) == Find(keys[i..], kid)
      {
        if keys[i].kid == kid { return Some(keys[i]); }
        assert keys[i..][1..] == keys[i + 1..];
        i := i + 1;
      }
      key := None;
    }

    method RunUpdate(fetch: Fetch, took: nat)
      modifies this
      ensures Contents() == Updated(old(Contents()), fetch, took)
    {
      if uri.None? { return; }
      now := now + took;
      match fetch
      case Failed =>
      case Fetched(fetched) =>
        keys := Filter(fetched);
        lastFetch := Some(fetched);
    }

    /** `JwksMsg::send`, and the error that the asker gets when there is no worker any more. */
    method SendMessage(message: Message)
      modifies this
      ensures Contents() == Apply(old(Contents()), Send(message))
    {
      if alive {
        mailbox := mailbox + [message];
      } else if message.Get? && message.waiting {
        answers := answers + [Closed(message.kid)];
      }
      OneMessage(message);
      asked := asked + Pending([message]);
    }

    method SendAnswer(answer: Answer, waiting: bool)
      modifies this`answers, this`alive, this`mailbox
      ensures Contents() == Reply(old(Contents()), answer, waiting)
    {
      if waiting {
        answers := answers + [answer];
      } else {
        alive := false;
        answers := answers + AllClosed(Pending(mailbox));
        mailbox := [];
      }
    }

    method AnswerGet(kid: string, waiting: bool, fetch: Fetch, took: nat)
      modifies this
      ensures Contents() == HandleGet(old(Contents()), kid, waiting, fetch, took)
    {
      hide Updated, Find, Reply;
      var key := FindKey(kid);
      if key.Some? {
        SendAnswer(Found(kid, key.value), waiting);
        return;
      }
      if kid in lookedUp && now - lookedUp[kid] < 300_000 {
        SendAnswer(RecentlyLookedUp(kid), waiting);
        return;
      }
      lookups := lookups + [Lookup(kid, now)];
      RunUpdate(fetch, took);
      lookedUp := lookedUp[kid := now];
      key := FindKey(kid);
      if key.Some? {
        SendAnswer(Found(kid, key.value), waiting);
        return;
      }
      SendAnswer(NotFound(kid), waiting);
    }

    method HandleNext(fetch: Fetch, took: nat)
      requires mailbox != [] && alive
      modifies this
      ensures Contents() == Apply(old(Contents()), Handle(fetch, took))
    {
      var message := mailbox[0];
      mailbox := mailbox[1..];
      match message
      case Get(kid, waiting) =>
        AnswerGet(kid, waiting, fetch, took);
      case Update =>
        RunUpdate(fetch, took);
      case NewUri(newUri) =>
        uri := Some(newUri);
        mailbox := mailbox + [Update];
    }

    /** The message loop of `jwks_handler`: it handles one message a round until the mailbox or the rounds run out. */
    method Run(rounds: seq<Step>) returns (n: nat)
      requires forall i :: 0 <= i < |rounds| ==> rounds[i].Handle?
      modifies this
      ensures n <= |rounds| && Contents() == Exec(old(Contents()), rounds, n)
      ensures n < |rounds| ==> mailbox == [] || !alive
    {
      hide Apply;
      n := 0;
      while n < |rounds| && mailbox != [] && alive
        invariant n <= |rounds| && Contents() == Exec(old(Contents()), rounds, n)
      {
        HandleNext(rounds[n].fetch, rounds[n].took);
        n := n + 1;
      }
    }
  }

  // ---------------------------------------------------------------------------------------------
  // The key list

  predicate Decoded(key: Key) {
    key.alg.EdDSA? && key.x.Some? ==> key.xBytes.Some? && Base64.UrlNoPadDecode(key.x.value) == key.xBytes
  }

  /** The filter keeps exactly the keys it can decode, in order, and pre-decodes every one of them. */
  lemma {:induction false} FilterKeepsDecodable(keys: seq<Key>)
    ensures forall key :: key in Filter(keys) ==> Decoded(key)
    ensures forall key :: key in keys && Predecoded(key).Some? ==> Predecoded(key).value in Filter(keys)
    ensures forall key :: key in Filter(keys) ==> exists raw :: raw in keys && Predecoded(raw) == Some(key)
  {
    if keys != [] {
      FilterKeepsDecodable(keys[1..]);
      forall key | key in Filter(keys) ensures exists raw :: raw in keys && Predecoded(raw) == Some(key) {
        if key in Filter(keys[1..]) {
          var raw :| raw in keys[1..] && Predecoded(raw) == Some(key);
          assert raw in keys;
        } else {
          assert Predecoded(keys[0]) == Some(key) && keys[0] in keys;
        }
      }
    }
  }

  predicate KeysInv(s: State) {
    s.keys == if s.lastFetch.Some? then Filter(s.lastFetch.value) else []
  }

  lemma ApplyKeepsKeys(s: State, step: Step)
    requires KeysInv(s)
    ensures KeysInv(Apply(s, step))
  {
    hide Filter, Find, Recent;
  }

  /** The key list is always the filtered list of the last successful fetch, empty if there was none. */
  lemma {:induction false} KeysAreLastFetch(s: State, steps: seq<Step>, n: nat)
    requires Init(s) && n <= |steps|
    ensures KeysInv(Exec(s, steps, n))
    ensures forall key :: key in Exec(s, steps, n).keys ==> Decoded(key)
  {
    hide Apply;
    if n != 0 {
      KeysAreLastFetch(s, steps, n - 1);
      ApplyKeepsKeys(Exec(s, steps, n - 1), steps[n - 1]);
    }
    var t := Exec(s, steps, n);
    if t.lastFetch.Some? { FilterKeepsDecodable(t.lastFetch.value); }
    hide Filter, Decoded, Exec;
  }

  // ---------------------------------------------------------------------------------------------
  // The answers

  function Kids(answers: seq<Answer>): seq<string> {
    seq(|answers|, i requires 0 <= i < |answers| => answers[i].kid)
  }

  lemma {:induction false} PendingAppend(mailbox: seq<Message>, message: Message)
    ensures Pending(mailbox + [message]) == Pending(mailbox) + Pending([message])
  {
    if mailbox == [] {
      assert mailbox + [message] == [message] && Pending([]) == [];
    } else {
      var longer, rest := mailbox + [message], mailbox[1..];
      PendingAppend(rest, message);
      assert longer[1..] == rest + [message] && longer[0] == mailbox[0];
      var first := if mailbox[0].Get? && mailbox[0].waiting then [mailbox[0].kid] else [];
      assert Pending(mailbox) == first + Pending(rest) && Pending(longer) == first + Pending(longer[1..]);
      hide Pending;
    }
  }

  predicate FoundOk(answer: Answer) {
    answer.Found? ==> answer.key.kid == answer.kid
  }

  /** Everybody who waits is accounted for, in order; nobody is told of a closed mailbox while the worker lives. */
  predicate AnswersInv(s: State) {
    && (forall i :: 0 <= i < |s.answers| ==> FoundOk(s.answers[i]) && (s.alive ==> !s.answers[i].Closed?))
    && s.asked == Kids(s.answers) + Pending(s.mailbox) && (!s.alive ==> s.mailbox == [])
  }

  lemma {:induction false} FindHasKid(keys: seq<Key>, kid: string)
    ensures Find(keys, kid).Some? ==> Find(keys, kid).value.kid == kid && Find(keys, kid).value in keys
    ensures Find(keys, kid).None? <==> forall key :: key in keys ==> key.kid != kid
  {
    if keys != [] { FindHasKid(keys[1..], kid); }
  }

  lemma KidsOfClosed(answers: seq<Answer>, kids: seq<string>)
    ensures Kids(answers + AllClosed(kids)) == Kids(answers) + kids
  {
  }

  /** The answer to the Get at the head of the mailbox. */
  lemma ReplyKeepsAnswers(s: State, answer: Answer, waiting: bool)
    requires s.alive && FoundOk(answer) && !answer.Closed?
    requires forall i :: 0 <= i < |s.answers| ==> FoundOk(s.answers[i]) && !s.answers[i].Closed?
    requires s.asked == Kids(s.answers) + ((if waiting then [answer.kid] else []) + Pending(s.mailbox))
    ensures AnswersInv(Reply(s, answer, waiting))
  {
    if waiting {
      assert Kids(s.answers + [answer]) == Kids(s.answers) + [answer.kid];
      hide Pending;
    } else {
      KidsOfClosed(s.answers, Pending(s.mailbox));
      assert Pending([]) == [] && [] + Pending(s.mailbox) == Pending(s.mailbox);
      var t := Reply(s, answer, waiting);
      hide Pending, Kids;
      assert t.asked == Kids(t.answers) + Pending(t.mailbox);
    }
  }

  lemma HandleKeepsAnswers(s: State, fetch: Fetch, took: nat)
    requires AnswersInv(s) && s.alive && s.mailbox != []
    ensures AnswersInv(HandleMessage(s.(mailbox := s.mailbox[1..]), s.mailbox[0], fetch, took))
  {
    var t := s.(mailbox := s.mailbox[1..]);
    match s.mailbox[0]
    case Get(kid, waiting) =>
      hide Filter, Find, Recent, Reply;
      var u := LookUp(t, kid, fetch, took);
      assert u.alive && u.answers == s.answers && u.mailbox == t.mailbox && u.asked == s.asked;
      FindHasKid(t.keys, kid);
      FindHasKid(u.keys, kid);
      assert s.asked == Kids(s.answers) + ((if waiting then [kid] else []) + Pending(t.mailbox));
      hide LookUp, Pending;
      if FirstAnswer(t, kid).Some? {
        ReplyKeepsAnswers(t, FirstAnswer(t, kid).value, waiting);
      } else {
        ReplyKeepsAnswers(u, SecondAnswer(u, kid), waiting);
      }
    case Update =>
      assert Pending(s.mailbox) == [] + Pending(t.mailbox) == Pending(t.mailbox);
    case NewUri(uri) =>
      assert Pending(s.mailbox) == [] + Pending(t.mailbox) == Pending(t.mailbox);
      PendingAppend(t.mailbox, Update);
      OneMessage(Update);
  }

  lemma SendKeepsAnswers(s: State, message: Message)
    requires AnswersInv(s)
    ensures AnswersInv(Apply(s, Send(message)))
  {
    var kids := Pending([message]);
    if s.alive {
      PendingAppend(s.mailbox, message);
    } else {
      KidsOfClosed(s.answers, kids);
      assert Pending([]) == [] && Kids(s.answers) + [] == Kids(s.answers);
    }
    hide Pending, Kids;
  }

  lemma ApplyKeepsAnswers(s: State, step: Step)
    requires AnswersInv(s)
    ensures AnswersInv(Apply(s, step))
  {
    match step
    case Send(message) =>
      SendKeepsAnswers(s, message);
    case Handle(fetch, took) =>
      hide HandleMessage;
      if s.alive && s.mailbox != [] { HandleKeepsAnswers(s, fetch, took); }
    case Tick(_) =>
  }

  lemma {:induction false} ExecKeepsAnswers(s: State, steps: seq<Step>, n: nat)
    requires Init(s) && n <= |steps|
    ensures AnswersInv(Exec(s, steps, n))
  {
    if n != 0 {
      hide Apply, AnswersInv;
      ExecKeepsAnswers(s, steps, n - 1);
      ApplyKeepsAnswers(Exec(s, steps, n - 1), steps[n - 1]);
    }
  }

  /** The messages taken out of the mailbox during the first n steps. */
  function Handled(s: State, steps: seq<Step>, n: nat): seq<Message>
    requires n <= |steps|
  {
    if n == 0 then []
    else
      var before := Exec(s, steps, n - 1);
      Handled(s, steps, n - 1) + if steps[n - 1].Handle? && before.alive && before.mailbox != []
          then [before.mailbox[0]] else []
  }

  predicate AllWaiting(messages: seq<Message>) {
    forall i :: 0 <= i < |messages| && messages[i].Get? ==> messages[i].waiting
  }

  lemma SurvivesIffWaiting(s: State, message: Message, fetch: Fetch, took: nat)
    requires s.alive
    ensures HandleMessage(s, message, fetch, took).alive <==> (message.Get? ==> message.waiting)
  {
    hide Filter, Find, Recent;
  }

  /** The step takes up a Get whose asker has gone away. */
  predicate Abandoned(s: State, step: Step) {
    step.Handle? && s.mailbox != [] && s.mailbox[0].Get? && !s.mailbox[0].waiting
  }

  lemma ApplyAlive(s: State, step: Step)
    ensures Apply(s, step).alive <==> s.alive && !Abandoned(s, step)
  {
    if step.Handle? && s.alive && s.mailbox != [] {
      SurvivesIffWaiting(s.(mailbox := s.mailbox[1..]), s.mailbox[0], step.fetch, step.took);
    }
    hide HandleMessage;
  }

  lemma AllWaitingAppend(messages: seq<Message>, message: Message)
    ensures AllWaiting(messages + [message]) <==> AllWaiting(messages) && (message.Get? ==> message.waiting)
  {
    if AllWaiting(messages + [message]) {
      forall i | 0 <= i < |messages| && messages[i].Get? ensures messages[i].waiting {
        assert (messages + [message])[i] == messages[i];
      }
      assert (messages + [message])[|messages|] == message;
    }
  }

  lemma NextHandled(s: State, steps: seq<Step>, n: nat)
    requires n < |steps|
    ensures var t := Exec(s, steps, n);
            AllWaiting(Handled(s, steps, n + 1)) <==>
              AllWaiting(Handled(s, steps, n)) && !(t.alive && Abandoned(t, steps[n]))
  {
    var t := Exec(s, steps, n);
    hide Exec, AllWaiting;
    if steps[n].Handle? && t.alive && t.mailbox != [] {
      AllWaitingAppend(Handled(s, steps, n), t.mailbox[0]);
    } else {
      assert Handled(s, steps, n) + [] == Handled(s, steps, n);
    }
  }

  /** The worker is alive exactly when everybody whose Get has been handled was still waiting for the answer. */
  lemma {:induction false} AliveIffAllWaiting(s: State, steps: seq<Step>, n: nat)
    requires Init(s) && n <= |steps|
    ensures Exec(s, steps, n).alive <==> AllWaiting(Handled(s, steps, n))
  {
    assert Exec(s, steps, 0).alive && AllWaiting(Handled(s, steps, 0));
    hide AllWaiting, Handled, Init, Abandoned, Apply;
    if n != 0 {
      AliveIffAllWaiting(s, steps, n - 1);
      ApplyAlive(Exec(s, steps, n - 1), steps[n - 1]);
      NextHandled(s, steps, n - 1);
    }
  }

  /**
   In every run each asker that waits gets exactly one answer, in the order of asking: the key ids asked for
   are those answered and those still in the mailbox. A key found has the id asked for.
   */
  lemma EveryGetAnsweredOnce(s: State, steps: seq<Step>, n: nat)
    requires Init(s) && n <= |steps|
    ensures var t := Exec(s, steps, n);
            && t.asked == Kids(t.answers) + Pending(t.mailbox)
            && forall i :: 0 <= i < |t.answers| ==> FoundOk(t.answers[i])
  {
    hide Exec, Kids, Pending, FoundOk;
    ExecKeepsAnswers(s, steps, n);
  }

  /** Nobody is told that the mailbox is closed as long as everybody whose Get was handled was still waiting. */
  lemma ClosedOnlyAfterPanic(s: State, steps: seq<Step>, n: nat)
    requires Init(s) && n <= |steps| && AllWaiting(Handled(s, steps, n))
    ensures forall i :: 0 <= i < |Exec(s, steps, n).answers| ==> !Exec(s, steps, n).answers[i].Closed?
  {
    hide Exec, Kids, Pending, FoundOk, Handled, AllWaiting;
    ExecKeepsAnswers(s, steps, n);
    AliveIffAllWaiting(s, steps, n);
  }

  lemma ApplyKeepsWaiting(s: State, step: Step)
    requires AllWaiting(s.mailbox) && (step.Send? && step.message.Get? ==> step.message.waiting)
    ensures AllWaiting(Apply(s, step).mailbox)
  {
    hide Filter, Find, Recent;
  }

  lemma {:induction false} OnlyWaitingHandled(s: State, steps: seq<Step>, n: nat)
    requires Init(s) && n <= |steps|
    requires forall i :: 0 <= i < n && steps[i].Send? && steps[i].message.Get? ==> steps[i].message.waiting
    ensures AllWaiting(Exec(s, steps, n).mailbox) && AllWaiting(Handled(s, steps, n))
  {
    if n != 0 {
      OnlyWaitingHandled(s, steps, n - 1);
      var before := Exec(s, steps, n - 1);
      assert before.mailbox != [] ==> (before.mailbox[0].Get? ==> before.mailbox[0].waiting);
      hide Apply, AllWaiting, Handled;
      ApplyKeepsWaiting(before, steps[n - 1]);
      NextHandled(s, steps, n - 1);
    }
  }

  /** As long as every asker waits for its answer the worker lives, and nobody gets another error than its own. */
  lemma NobodyClosedIfAllWait(s: State, steps: seq<Step>, n: nat)
    requires Init(s) && n <= |steps|
    requires forall i :: 0 <= i < n && steps[i].Send? && steps[i].message.Get? ==> steps[i].message.waiting
    ensures Exec(s, steps, n).alive
    ensures forall i :: 0 <= i < |Exec(s, steps, n).answers| ==> !Exec(s, steps, n).answers[i].Closed?
  {
    hide Exec, Handled, AllWaiting, Init;
    OnlyWaitingHandled(s, steps, n);
    AliveIffAllWaiting(s, steps, n);
    ClosedOnlyAfterPanic(s, steps, n);
  }

  lemma DeadApply(s: State, step: Step)
    requires !s.alive
    ensures var t := Apply(s, step);
            && !t.alive && |s.answers| <= |t.answers| && t.answers[..|s.answers|] == s.answers
            && forall i :: |s.answers| <= i < |t.answers| ==> t.answers[i].Closed?
  {
  }

  lemma AllAnsweredWhenDead(s: State)
    requires AnswersInv(s) && !s.alive
    ensures s.asked == Kids(s.answers)
  {
    assert Pending(s.mailbox) == [];
  }

  /**
   After the panic nobody is left waiting, and everybody who asks from then on is told at once that the mailbox
   is closed.
   */
  lemma {:induction false} OnlyClosedAfterPanic(s: State, steps: seq<Step>, m: nat, n: nat)
    requires Init(s) && m <= n <= |steps| && !Exec(s, steps, m).alive
    ensures var a, b := Exec(s, steps, m).answers, Exec(s, steps, n).answers;
            && |a| <= |b| && b[..|a|] == a && (forall i :: |a| <= i < |b| ==> b[i].Closed?)
            && !Exec(s, steps, n).alive && Exec(s, steps, n).asked == Kids(b)
    decreases n
  {
    hide Apply, AnswersInv, Init, Kids;
    if m < n {
      OnlyClosedAfterPanic(s, steps, m, n - 1);
      DeadApply(Exec(s, steps, n - 1), steps[n - 1]);
    }
    hide Exec;
    ExecKeepsAnswers(s, steps, n);
    AllAnsweredWhenDead(Exec(s, steps, n));
  }

  lemma TwoGets(s: State, a: string, b: string, fetch: Fetch, took: nat)
    requires s.alive && s.mailbox == [Get(a, false), Get(b, true)] && s.answers == []
    ensures var t := Apply(s, Handle(fetch, took)); t.answers == [Closed(b)] && t.mailbox == []
  {
    OneMessage(Get(b, true));
    assert s.mailbox[1..] == [Get(b, true)];
    hide Filter, Find, Recent, Pending, AllClosed;
  }

  /**
   Two Gets are sent, the first asker goes away before it is handled: the second is told that the mailbox is
   closed.
   */
  lemma AbandonedGetCloses(s: State, steps: seq<Step>, a: string, b: string)
    requires Init(s) && |steps| == 3
    requires steps[0] == Send(Get(a, false)) && steps[1] == Send(Get(b, true)) && steps[2].Handle?
    ensures Exec(s, steps, 3).answers == [Closed(b)] && Exec(s, steps, 3).mailbox == []
  {
    OneMessage(Get(a, false));
    OneMessage(Get(b, true));
    assert Exec(s, steps, 1) == Apply(s, steps[0]);
    var t := Exec(s, steps, 2);
    assert t == s.(mailbox := [Get(a, false), Get(b, true)], asked := [b]);
    assert Exec(s, steps, 3) == Apply(t, steps[2]);
    hide Exec;
    TwoGets(t, a, b, steps[2].fetch, steps[2].took);
  }

  /** How often the worker has taken up a message in the steps from m to n, or could have. */
  function Handles(steps: seq<Step>, m: nat, n: nat): nat
    requires m <= n <= |steps|
  {
    if m == n then 0 else Handles(steps, m, n - 1) + if steps[n - 1].Handle? then 1 else 0
  }

  /**
   After some messages have been handled, those that the mailbox held before and that are left are at its
   head, and everybody who had asked by then has been answered or is among them.
   */
  predicate Served(before: State, t: State, handles: nat) {
    if t.alive && handles <= |before.mailbox| then
      && before.mailbox[handles..] <= t.mailbox
      && |t.answers| + |Pending(before.mailbox[handles..])| >= |before.asked|
    else |t.answers| >= |before.asked|
  }

  lemma HandleServesHead(s: State, step: Step, rest: seq<Message>)
    requires step.Handle? && s.alive && Apply(s, step).alive && rest != [] && rest <= s.mailbox
    ensures rest[1..] <= Apply(s, step).mailbox
    ensures |Apply(s, step).answers| + |Pending(rest[1..])| >= |s.answers| + |Pending(rest)|
  {
    assert s.mailbox[0] == rest[0];
    hide Filter, Find, Recent, AllClosed;
  }

  lemma AnswersGrow(s: State, step: Step)
    ensures s.asked <= Apply(s, step).asked && |s.answers| <= |Apply(s, step).answers|
    ensures Apply(s, step).alive ==> s.alive
    ensures !step.Handle? && s.alive ==> s.mailbox <= Apply(s, step).mailbox
  {
    hide Filter, Find, Recent, Pending;
  }

  lemma {:induction false} AskedGrows(s: State, steps: seq<Step>, m: nat, n: nat)
    requires m <= n <= |steps|
    ensures Exec(s, steps, m).asked <= Exec(s, steps, n).asked
    decreases n
  {
    hide Apply;
    if m < n {
      AskedGrows(s, steps, m, n - 1);
      AnswersGrow(Exec(s, steps, n - 1), steps[n - 1]);
    }
  }

  lemma KidsAndPending(s: State)
    requires AnswersInv(s)
    ensures |s.asked| == |s.answers| + |Pending(s.mailbox)| && (!s.alive ==> |s.asked| == |s.answers|)
  {
    assert Pending([]) == [];
    hide Pending;
  }

  lemma ServedNext(s: State, t: State, asked: nat, rest: seq<Message>, step: Step)
    requires s.alive && t == Apply(s, step) && t.alive && rest <= s.mailbox && |s.answers| + |Pending(rest)| >= asked
    ensures !step.Handle? ==> rest <= t.mailbox && |t.answers| + |Pending(rest)| >= asked
    ensures step.Handle? && rest != [] ==> rest[1..] <= t.mailbox && |t.answers| + |Pending(rest[1..])| >= asked
    ensures rest == [] ==> |t.answers| >= asked
  {
    hide Apply;
    assert Pending([]) == [];
    hide Pending;
    AnswersGrow(s, step);
    if step.Handle? && rest != [] { HandleServesHead(s, step, rest); }
  }

  lemma ServedStep(before: State, s: State, step: Step, handles: nat)
    requires Served(before, s, handles) && AnswersInv(Apply(s, step)) && before.asked <= Apply(s, step).asked
    ensures Served(before, Apply(s, step), handles + if step.Handle? then 1 else 0)
  {
    hide Apply, Pending, AnswersInv;
    var t := Apply(s, step);
    KidsAndPending(t);
    AnswersGrow(s, step);
    if t.alive && handles <= |before.mailbox| {
      var rest := before.mailbox[handles..];
      ServedNext(s, t, |before.asked|, rest, step);
      if rest != [] { assert rest[1..] == before.mailbox[handles + 1..]; }
    }
  }

  lemma ServedAtFirst(s: State)
    requires AnswersInv(s)
    ensures Served(s, s, 0)
  {
    KidsAndPending(s);
    assert s.mailbox[0..] == s.mailbox;
  }

  lemma {:induction false} AskersAreServed(s: State, steps: seq<Step>, m: nat, n: nat)
    requires Init(s) && m <= n <= |steps|
    ensures Served(Exec(s, steps, m), Exec(s, steps, n), Handles(steps, m, n))
    decreases n
  {
    hide Apply, Pending, AnswersInv, Init, Served;
    ExecKeepsAnswers(s, steps, n);
    if m == n {
      ServedAtFirst(Exec(s, steps, m));
    } else {
      AskersAreServed(s, steps, m, n - 1);
      AskedGrows(s, steps, m, n);
      ServedStep(Exec(s, steps, m), Exec(s, steps, n - 1), steps[n - 1], Handles(steps, m, n - 1));
    }
  }

  /**
   Once the worker has taken up as many messages as the mailbox held, everybody who had asked by then has been
   answered.
   */
  lemma EveryAskerIsServed(s: State, steps: seq<Step>, m: nat, n: nat)
    requires Init(s) && m <= n <= |steps| && Handles(steps, m, n) >= |Exec(s, steps, m).mailbox|
    ensures Exec(s, steps, m).asked <= Kids(Exec(s, steps, n).answers)
  {
    assert Pending([]) == [];
    hide Exec, Pending, Init, Handles, FoundOk;
    AskersAreServed(s, steps, m, n);
    AskedGrows(s, steps, m, n);
    ExecKeepsAnswers(s, steps, n);
  }

  // ---------------------------------------------------------------------------------------------
  // The rate of lookups

  predicate Spaced(lookups: seq<Lookup>) {
    forall i, j :: 0 <= i < j < |lookups| && lookups[i].kid == lookups[j].kid ==>
        lookups[i].at + 300_000 <= lookups[j].at
  }

  predicate LookupsInv(s: State, start: int) {
    && Spaced(s.lookups)
    && forall i :: 0 <= i < |s.lookups| ==>
         && start <= s.lookups[i].at && s.lookups[i].kid in s.lookedUp
         && s.lookups[i].at <= s.lookedUp[s.lookups[i].kid] <= s.now
  }

  lemma UpdateKeepsLookups(s: State, fetch: Fetch, took: nat)
    ensures var t := Updated(s, fetch, took);
            t.lookups == s.lookups && t.lookedUp == s.lookedUp && t.now >= s.now
  {
    hide Filter;
  }

  lemma LookUpKeepsLookups(s: State, start: int, kid: string, fetch: Fetch, took: nat)
    requires LookupsInv(s, start) && start <= s.now && !Recent(s, kid)
    ensures LookupsInv(LookUp(s, kid, fetch, took), start) && start <= LookUp(s, kid, fetch, took).now
  {
    UpdateKeepsLookups(s.(lookups := s.lookups + [Lookup(kid, s.now)]), fetch, took);
    hide Updated;
  }

  lemma ApplyKeepsLookups(s: State, start: int, step: Step)
    requires LookupsInv(s, start) && start <= s.now
    ensures LookupsInv(Apply(s, step), start) && start <= Apply(s, step).now
  {
    if step.Handle? && s.alive && s.mailbox != [] {
      var t := s.(mailbox := s.mailbox[1..]);
      assert LookupsInv(t, start);
      UpdateKeepsLookups(t, step.fetch, step.took);
      if s.mailbox[0].Get? && !Recent(t, s.mailbox[0].kid) {
        LookUpKeepsLookups(t, start, s.mailbox[0].kid, step.fetch, step.took);
      }
    }
    hide Updated, LookUp, Find, Recent;
  }

  /** Updates triggered by Gets for one key id lie at least 300 s apart. */
  lemma {:induction false} LookupsAreSpaced(s: State, steps: seq<Step>, n: nat)
    requires Init(s) && n <= |steps|
    ensures LookupsInv(Exec(s, steps, n), s.now) && s.now <= Exec(s, steps, n).now
  {
    if n != 0 {
      hide Apply, LookupsInv;
      LookupsAreSpaced(s, steps, n - 1);
      ApplyKeepsLookups(Exec(s, steps, n - 1), s.now, steps[n - 1]);
    }
  }

  /** How many of the lookups were for one of the key ids. */
  function CountFor(lookups: seq<Lookup>, kids: set<string>): nat {
    if lookups == [] then 0
    else CountFor(lookups[..|lookups| - 1], kids) + if lookups[|lookups| - 1].kid in kids then 1 else 0
  }

  /** The last lookup for a key id comes at least a lifespan for each earlier one after the start. */
  lemma {:induction false} LastLookup(lookups: seq<Lookup>, kid: string, start: int) returns (i: nat)
    requires Spaced(lookups) && CountFor(lookups, {kid}) > 0
    requires forall i :: 0 <= i < |lookups| ==> start <= lookups[i].at
    ensures i < |lookups| && lookups[i].kid == kid
    ensures lookups[i].at >= start + (CountFor(lookups, {kid}) - 1) * LIFESPAN
  {
    var k := |lookups| - 1;
    if lookups[k].kid == kid {
      i := k;
      if CountFor(lookups[..k], {kid}) > 0 {
        var j := LastLookup(lookups[..k], kid, start);
        assert lookups[j].at + LIFESPAN <= lookups[k].at;
      }
    } else {
      i := LastLookup(lookups[..k], kid, start);
    }
  }

  lemma CountForOne(lookups: seq<Lookup>, kid: string, start: int, end: int)
    requires start <= end && Spaced(lookups) && forall i :: 0 <= i < |lookups| ==> start <= lookups[i].at <= end
    ensures CountFor(lookups, {kid}) <= (end - start) / LIFESPAN + 1
  {
    if CountFor(lookups, {kid}) > 0 {
      var i := LastLookup(lookups, kid, start);
    }
  }

  lemma {:induction false} CountSplits(lookups: seq<Lookup>, kid: string, kids: set<string>)
    requires kid in kids
    ensures CountFor(lookups, kids) == CountFor(lookups, {kid}) + CountFor(lookups, kids - {kid})
  {
    if lookups != [] { CountSplits(lookups[..|lookups| - 1], kid, kids); }
  }

  lemma {:induction false} CountForNone(lookups: seq<Lookup>)
    ensures CountFor(lookups, {}) == 0
  {
    if lookups != [] { CountForNone(lookups[..|lookups| - 1]); }
  }

  lemma {:induction false} CountForMany(lookups: seq<Lookup>, kids: set<string>, start: int, end: int)
    requires start <= end && Spaced(lookups) && forall i :: 0 <= i < |lookups| ==> start <= lookups[i].at <= end
    ensures CountFor(lookups, kids) <= |kids| * ((end - start) / LIFESPAN + 1)
    decreases |kids|
  {
    if kids == {} {
      CountForNone(lookups);
    } else {
      var kid :| kid in kids;
      var rest, bound := kids - {kid}, (end - start) / LIFESPAN + 1;
      CountSplits(lookups, kid, kids);
      CountForOne(lookups, kid, start, end);
      CountForMany(lookups, rest, start, end);
      assert |rest| * bound + bound == (|rest| + 1) * bound;
    }
  }

  lemma {:induction false} CountForAll(lookups: seq<Lookup>, kids: set<string>)
    requires forall i :: 0 <= i < |lookups| ==> lookups[i].kid in kids
    ensures CountFor(lookups, kids) == |lookups|
  {
    if lookups != [] { CountForAll(lookups[..|lookups| - 1], kids); }
  }

  lemma LookupsFit(s: State, start: int, kids: set<string>)
    requires LookupsInv(s, start) && start <= s.now && forall i :: 0 <= i < |s.lookups| ==> s.lookups[i].kid in kids
    ensures |s.lookups| <= |kids| * ((s.now - start) / LIFESPAN + 1)
  {
    CountForAll(s.lookups, kids);
    CountForMany(s.lookups, kids, start, s.now);
    hide CountFor, Spaced;
  }

  /** However many Gets come in, they trigger at most one update per key id and 300 s, and one more per key id. */
  lemma LookupsAreFew(s: State, steps: seq<Step>, n: nat, kids: set<string>)
    requires Init(s) && n <= |steps|
    requires forall i :: 0 <= i < |Exec(s, steps, n).lookups| ==> Exec(s, steps, n).lookups[i].kid in kids
    ensures |Exec(s, steps, n).lookups| <= |kids| * ((Exec(s, steps, n).now - s.now) / 300_000 + 1)
  {
    LookupsAreSpaced(s, steps, n);
    hide Exec, Init, LookupsInv, Spaced;
    LookupsFit(Exec(s, steps, n), s.now, kids);
  }
}
