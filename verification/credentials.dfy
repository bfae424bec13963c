/** The credential lifecycle client against a server that may answer anything, lose answers and end
    credentials at any moment: local material is purged only when the server confirmed it inactive, and
    no issued credential is dropped without a trace. */
module Credentials {
  import opened Prelude

  /** A token-shaped value. */
  type Token = t: string | t != "" witness "t"

  /** Where a credential can lie on this host, in order of precedence. */
  datatype Location = Environment | Keyring | TokenFile

  datatype Credential = Credential(token: Token, source: Location)

  /** Client, server and what has passed between them. `live` and `dead` are the server's truth;
      `recent` is what it issued during this command; `confirmed` is what it said is inactive, and
      `refused` what it was asked to end and did not confirm. `stuck` is where a removal failed, and
      `missed` counts the waits that were cut short or outlasted their grant, `checks` the looks at the
      grant itself and `overs` those that found it over. */
  datatype World = World(
    store: map<Location, Token>,
    now: nat,
    live: set<Token>,
    dead: set<Token>,
    recent: set<Token>,
    confirmed: set<Token>,
    received: set<Token>,
    reported: set<Token>,
    refused: set<Token>,
    stuck: set<Location>,
    missed: nat,
    checks: nat,
    overs: nat,
    purged: set<Token>,
    replaced: set<Token>,
    authorizations: nat,
    polls: nat
  )

  /** Nothing purged that the server did not confirm, nothing confirmed that is not dead, and nothing
      reported to the operator that the server was not asked to end. */
  ghost predicate Sound(w: World) {
    w.live !! w.dead && w.confirmed <= w.dead && w.purged <= w.confirmed && w.reported <= w.refused
  }

  /** The credential the client uses: the first of environment, keyring, file. */
  function Selected(store: map<Location, Token>): Option<Credential> {
    if Environment in store then Some(Credential(store[Environment], Environment))
    else if Keyring in store then Some(Credential(store[Keyring], Keyring))
    else if TokenFile in store then Some(Credential(store[TokenFile], TokenFile))
    else None
  }

  predicate Stored(w: World, t: Token) { exists at :: at in w.store && w.store[at] == t }

  /** Every token received has been stored, ended, or reported to the operator. */
  ghost predicate Settled(w: World) {
    forall t :: t in w.received ==> Stored(w, t) || t in w.confirmed || t in w.reported
  }

  /** Time and sets only grow. */
  ghost predicate Follows(v: World, w: World) {
    && v.now <= w.now && v.dead <= w.dead && v.recent <= w.recent && v.confirmed <= w.confirmed
    && v.received <= w.received && v.reported <= w.reported && v.refused <= w.refused && v.stuck <= w.stuck
    && v.missed <= w.missed && v.checks <= w.checks && v.overs <= w.overs && v.purged <= w.purged && v.replaced <= w.replaced
    && v.authorizations <= w.authorizations && v.polls <= w.polls
  }

  /** Nothing on this host changed, and the server issued nothing. */
  ghost predicate Untouched(v: World, w: World) {
    && w.store == v.store && w.purged == v.purged && w.replaced == v.replaced && w.recent == v.recent
    && w.received == v.received && w.reported == v.reported && w.stuck == v.stuck && w.missed == v.missed
    && w.checks == v.checks && w.overs == v.overs && w.authorizations == v.authorizations && w.polls == v.polls
    && Follows(v, w)
  }

  /** Outside the exempt locations every credential still lies where it lay, or was confirmed inactive. */
  ghost predicate Keeps(v: World, w: World, exempt: set<Location>) {
    forall at :: at in v.store && at !in exempt ==> (at in w.store && w.store[at] == v.store[at]) || v.store[at] in w.confirmed
  }

  /** Two removable credentials lie on this host, and nothing outranks them. */
  predicate TwoHeld(store: map<Location, Token>) { Environment !in store && Keyring in store && TokenFile in store }

  predicate Contradict(c: Credential, d: Credential) { c.source == d.source && c.token != d.token }

  predicate Removable(c: Credential, store: map<Location, Token>) {
    c.source != Environment && c.source in store && store[c.source] == c.token
  }

  /** Nothing outranks the token file, and the token to come is not an ended one. */
  predicate Straight(w: World) { Environment !in w.store && Keyring !in w.store && "new" !in w.dead }

  /** Only the keyring or only the token file was written, and nothing but those lost a live credential. */
  ghost predicate Adds(v: World, w: World) {
    && Keeps(v, w, {Keyring, TokenFile}) && w.replaced == v.replaced
    && (w.store.Keys <= v.store.Keys + {Keyring} || w.store.Keys <= v.store.Keys + {TokenFile})
  }

  /** Nothing on this host changed, and no wait was missed. */
  predicate SameHost(v: World, w: World) {
    w.store == v.store && w.confirmed == v.confirmed && w.replaced == v.replaced && w.reported == v.reported && w.missed == v.missed && w.overs == v.overs
  }

  /** One removal: the location is cleared, or noted as stuck. */
  predicate RemovedOne(v: World, w: World, c: Credential, ok: bool) {
    if !ok then w == v.(stuck := v.stuck + {c.source})
    else if c.source !in v.store then w == v
    else v.store[c.source] == c.token && c.source != Environment && w == v.(store := v.store - {c.source}, purged := v.purged + {c.token})
  }

  /** What removing the first `n` of some material may do: a location is emptied only when it held its
      captured token, and one that still holds a credential of theirs is known to be stuck. */
  ghost predicate Purged(v: World, w: World, material: seq<Credential>, n: nat) {
    && n <= |material|
    && w == v.(store := w.store, purged := w.purged, stuck := w.stuck) && v.stuck <= w.stuck
    && (forall at :: at in w.store ==> at in v.store && w.store[at] == v.store[at])
    && (forall at :: at in v.store && at !in w.store ==>
          at != Environment && Credential(v.store[at], at) in material && v.store[at] in w.purged)
    && v.purged <= w.purged && (forall t :: t in w.purged ==> t in v.purged || exists i :: 0 <= i < |material| && material[i].token == t)
    && (forall i :: 0 <= i < n ==> material[i].source !in w.store || material[i].source in w.stuck)
  }

  lemma PurgedNothing(v: World, material: seq<Credential>)
    ensures Purged(v, v, material, 0)
  {
  }

  lemma AllStuck(v: World, material: seq<Credential>)
    ensures Purged(v, v.(stuck := v.stuck + set i | 0 <= i < |material| :: material[i].source), material, |material|)
  {
  }

  lemma PurgeStep(u: World, v: World, w: World, material: seq<Credential>, i: nat, ok: bool)
    requires i < |material| && Purged(u, v, material, i) && RemovedOne(v, w, material[i], ok)
    ensures Purged(u, w, material, i + 1)
    ensures v.stuck <= w.stuck && (ok ==> material[i].source !in w.store) && (!ok ==> material[i].source in w.stuck && w.store == v.store)
    ensures w.store.Keys <= v.store.Keys && forall at :: at in v.store ==> at in u.store && v.store[at] == u.store[at]
  {
    var c := material[i];
    if ok && c.source in v.store {
      assert Credential(u.store[c.source], c.source) == c;
      assert c in material;
    }
  }

  lemma PurgedMeans(v: World, w: World, material: seq<Credential>)
    requires Sound(v) && Purged(v, w, material, |material|)
    ensures Follows(v, w)
    ensures (forall i :: 0 <= i < |material| ==> material[i].token in w.confirmed) ==> Sound(w)
  {
  }

  predicate OneHeld(store: map<Location, Token>) { !(Keyring in store && TokenFile in store) }

  lemma FollowsOn(u: World, v: World, w: World)
    requires Follows(u, v) && Follows(v, w)
    ensures Follows(u, w)
  {
  }

  datatype RevokeAnswer = Done | InvalidToken | Failed

  datatype AckAnswer = AckDone | AckNotFound | AckConflict | AckFailed

  datatype AckOutcome = AckConfirmed | AckNotApplicable | AckWindowClosed | AckUnknown

  datatype PollAnswer =
    | Issued(token: Token)
    | BadResponse(token: Token)
    | UnreadableSuccess
    | Pending | SlowDown | Denied | ExpiredToken | InvalidGrant
    | TimedOut | Unavailable | OtherFailure

  /** Section 3.5 of RFC 8628, and lost or missing responses: the grant is still open. */
  predicate LeavesOpen(a: PollAnswer) { a.Pending? || a.SlowDown? || a.TimedOut? || a.Unavailable? }

  datatype Outcome = Succeeded | LoginFailed | Restart

  datatype GrantState = GrantLive | GrantExpired | GrantCancelled

  const GRANT_SECONDS: nat := 600
  const POLL_SECONDS: nat := 5
  const ACK_ATTEMPTS: nat := 3
  const MAX_AUTHORIZATIONS: nat := 2

  function SlowDowns(answers: seq<PollAnswer>): nat {
    if answers == [] then 0 else SlowDowns(answers[..|answers| - 1]) + if answers[|answers| - 1] == SlowDown then 1 else 0
  }

  /** Section 3.5 of RFC 8628: each wait is the first interval plus five seconds per slow_down so far. */
  ghost predicate Paced(initial: nat, waits: seq<nat>, answers: seq<PollAnswer>) {
    |waits| == |answers| && forall i :: 0 <= i < |waits| ==> waits[i] == initial + 5 * SlowDowns(answers[..i])
  }

  lemma PacedOneMore(initial: nat, waits: seq<nat>, answers: seq<PollAnswer>, a: PollAnswer)
    requires Paced(initial, waits, answers)
    ensures Paced(initial, waits + [initial + 5 * SlowDowns(answers)], answers + [a])
    ensures SlowDowns(answers + [a]) == SlowDowns(answers) + if a == SlowDown then 1 else 0
  {
    var more := answers + [a];
    assert more[..|answers|] == answers && answers[..|answers|] == answers;
    assert forall i :: 0 <= i < |answers| ==> more[..i] == answers[..i];
  }

  /** Where a grant that is still open stands: nothing came of it yet, and its waits were kept and paced. */
  ghost predicate Polling(v: World, w: World, expiresIn: nat, interval: nat, pause: nat, waited: nat, waits: seq<nat>, answers: seq<PollAnswer>) {
    && Follows(v, w) && w.received == {} && SameHost(v, w)
    && w.polls == v.polls + |answers| && w.authorizations == v.authorizations
    && Paced(interval, waits, answers) && pause == interval + 5 * SlowDowns(answers)
    && |answers| * interval <= waited <= expiresIn && v.now + waited <= w.now
    && w.checks == v.checks + TimeOuts(answers)
  }

  function TimeOuts(answers: seq<PollAnswer>): nat {
    if answers == [] then 0 else TimeOuts(answers[..|answers| - 1]) + if answers[|answers| - 1] == TimedOut then 1 else 0
  }

  lemma TimeOutsOneMore(answers: seq<PollAnswer>, a: PollAnswer)
    ensures TimeOuts(answers + [a]) == TimeOuts(answers) + if a == TimedOut then 1 else 0
  {
    assert (answers + [a])[..|answers|] == answers;
  }

  lemma StartsPolling(w: World, expiresIn: nat, interval: nat)
    requires w.received == {}
    ensures Polling(w, w, expiresIn, interval, interval, 0, [], [])
  {
    StartsPaced(interval);
  }

  /** One kept wait and its answer. */
  lemma PollStep(v: World, u: World, w: World, expiresIn: nat, interval: nat, pause: nat, waited: nat, waits: seq<nat>, answers: seq<PollAnswer>, a: PollAnswer)
    requires Polling(v, u, expiresIn, interval, pause, waited, waits, answers) && 0 < interval
    requires Follows(u, w) && SameHost(u, w) && w.polls == u.polls + 1 && w.authorizations == u.authorizations && w.checks == u.checks
    requires u.now + pause <= v.now + expiresIn && u.now + pause <= w.now
    ensures Follows(v, w) && SameHost(v, w) && w.polls == v.polls + |answers + [a]| && w.authorizations == v.authorizations
    ensures Paced(interval, waits + [pause], answers + [a]) && |answers + [a]| * interval <= expiresIn
    ensures w.checks == v.checks + TimeOuts(answers)
    ensures TimeOuts(answers + [a]) == TimeOuts(answers) + if a == TimedOut then 1 else 0
    ensures w.received == {} ==>
      var x := if a == TimedOut then w.(checks := w.checks + 1) else w;
      Polling(v, x, expiresIn, interval, if a == SlowDown then pause + 5 else pause, waited + pause, waits + [pause], answers + [a])
    ensures pause > 0
  {
    hide Paced, Follows, SlowDowns, Settled, Adds;
    FollowsOn(v, u, w);
    PacedOneMore(interval, waits, answers, a);
    TimeOutsOneMore(answers, a);
    assert (|answers| + 1) * interval == |answers| * interval + interval;
    CheckedFollows(v, w);
  }

  lemma CheckedFollows(v: World, w: World)
    requires Follows(v, w)
    ensures Follows(v, w.(checks := w.checks + 1)) && Follows(v, w.(checks := w.checks + 1, overs := w.overs + 1))
  {
  }

  lemma MissedPoll(v: World, u: World, w: World, expiresIn: nat, interval: nat, pause: nat, waited: nat, waits: seq<nat>, answers: seq<PollAnswer>)
    requires Polling(v, u, expiresIn, interval, pause, waited, waits, answers)
    requires Follows(u, w) && SameHost(u, w.(missed := u.missed)) && w.polls == u.polls && w.authorizations == u.authorizations && w.checks == u.checks
    ensures Follows(v, w) && w.polls == v.polls + |answers| && w.authorizations == v.authorizations && w.checks == v.checks + TimeOuts(answers)
    ensures Paced(interval, waits, answers) && |answers| * interval <= expiresIn && u.missed == v.missed
    ensures SameHost(v, w.(missed := v.missed))
  {
    hide Paced, Follows, SlowDowns, Settled, Adds;
    FollowsOn(v, u, w);
  }

  /** All that may happen at one moment: how long it takes, what ends, and every answer there is. */
  datatype Moment = Moment(
    seconds: nat, ended: set<Token>, revoke: RevokeAnswer, ack: AckAnswer, poll: PollAnswer, at: Location,
    yes: bool, also: bool, grant: GrantState)

  /** A world where each moment brings the same: five seconds, a token refused as invalid, a new one
      issued, the keyring unavailable. */
  const SAME: Moment := Moment(5, {}, InvalidToken, AckDone, Issued("new"), TokenFile, true, true, GrantLive)

  function Later(w: World, m: Moment): World {
    w.(now := w.now + m.seconds, live := w.live - m.ended, dead := w.dead + (m.ended * w.live))
  }

  function Authorized(w: World, m: Moment): World { Later(w, m).(authorizations := w.authorizations + 1) }

  /** What the server says of a token: the truth, but that it may call one issued moments ago invalid. */
  function Truthful(w: World, token: Token, a: RevokeAnswer): RevokeAnswer {
    if a == InvalidToken && token in w.live && token !in w.recent then Failed else a
  }

  /** What a poll brings: the server never issues a token it has ended. */
  function Arrives(w: World, a: PollAnswer): PollAnswer {
    if (a.Issued? || a.BadResponse?) && a.token in w.dead then OtherFailure else a
  }

  /** The client. `fate` is what each moment brings: any function at all. */
  class Client {
    const fate: nat -> Moment
    var turn: nat
    var w: World

    constructor (fate: nat -> Moment, store: map<Location, Token>, live: set<Token>, dead: set<Token>)
      requires live !! dead
      ensures turn == 0 && w == World(store, 0, live, dead, {}, {}, {}, {}, {}, {}, 0, 0, 0, {}, {}, 0, 0) && this.fate == fate
    {
      this.fate, turn := fate, 0;
      w := World(store, 0, live, dead, {}, {}, {}, {}, {}, {}, 0, 0, 0, {}, {}, 0, 0);
    }

    ghost predicate Steady() { forall n :: fate(n) == SAME }

    /** Nothing ends by itself. */
    ghost predicate Quiet() { forall n :: fate(n).ended == {} }

    /** From moment `n` a token can be stored: a place is found and written. */
    predicate CanStore(n: nat) { fate(n).yes && fate(n).at != Environment && fate(n + 1).yes }

    /** The first definite answer to the three acknowledgements that start at moment `n`. */
    function AckSays(n: nat): AckOutcome {
      var first := if fate(n + 1).ack != AckFailed then fate(n + 1).ack
                   else if fate(n + 3).ack != AckFailed then fate(n + 3).ack else fate(n + 5).ack;
      match first
      case AckDone => AckConfirmed
      case AckNotFound => AckNotApplicable
      case AckConflict => AckWindowClosed
      case AckFailed => AckUnknown
    }

    /** The location can be cleared at moment `n`: it holds the captured token, or nothing. */
    predicate CanRemove(n: nat, c: Credential, store: map<Location, Token>) {
      fate(n).yes && c.source != Environment && (c.source in store ==> store[c.source] == c.token)
    }

    /** Every location holds its captured token and can be cleared. */
    predicate AllRemovable(n: nat, material: seq<Credential>, store: map<Location, Token>) {
      forall i | 0 <= i < |material| :: Removable(material[i], store) && fate(n + i).yes
    }

    /** A token issued before moment `n` is stored and read back as the selected one. */
    predicate ReadsBack(n: nat, store: map<Location, Token>, token: Token) {
      CanStore(n) && fate(n + 2).yes && Selected(store[fate(n).at := token]) == Some(Credential(token, fate(n).at))
    }

    /** It is also acknowledged. */
    predicate Lands(n: nat, store: map<Location, Token>, token: Token) {
      ReadsBack(n, store, token) && AckSays(n + 3) == AckConfirmed
    }

    /** Just before moment `n` the grant was cancelled, expired or past its deadline. */
    predicate GrantOver(n: nat, deadline: nat, now: nat) { n > 0 && (fate(n - 1).grant != GrantLive || deadline < now) }

    /** The wait that starts at moment `n` is kept inside the grant, and nothing ends until its answer. */
    predicate Kept(n: nat, now: nat, deadline: nat, pause: nat) {
      && fate(n).ended == {} && fate(n + 1).ended == {}
      && pause <= fate(n).seconds && now + fate(n).seconds <= deadline
    }

    /** From moment `n` the server lets the client wait `k` times, each wait kept inside the grant and no
        shorter than asked, and then issues a token; nothing else ends meanwhile. */
    predicate Prompt(n: nat, now: nat, deadline: nat, pause: nat, k: nat)
      decreases k
    {
      && Kept(n, now, deadline, pause)
      && if k == 0 then fate(n + 2).poll.Issued? else
           && (fate(n + 2).poll == Pending || fate(n + 2).poll == SlowDown || fate(n + 2).poll == Unavailable)
           && Prompt(n + 3, now + fate(n).seconds + fate(n + 1).seconds, deadline,
                     if fate(n + 2).poll == SlowDown then pause + 5 else pause, k - 1)
    }

    /** One more answer of such a grant: an open one leads on, and the other is its token. */
    lemma OnwardStep(n: nat, v: World, i: nat, at: nat, u: World, w: World, expiresIn: nat, interval: nat, pause: nat, k: nat, a: PollAnswer)
      requires Granted(n, v, expiresIn, interval, k) && Onward(n, v, i, at, u, v.now + expiresIn, pause, k)
      requires a == Arrives(u, fate(at + 2).poll) && w.dead == u.dead
      requires w.now == u.now + fate(at).seconds + fate(at + 1).seconds
      ensures LeavesOpen(a) ==> a != TimedOut
      ensures LeavesOpen(a) && w.live == u.live ==>
        Onward(n, v, i + 1, at + 3, w, v.now + expiresIn, if a == SlowDown then pause + 5 else pause, k)
      ensures !LeavesOpen(a) ==> i == k && a == fate(n + 3 * k + 2).poll && a.Issued? && Lands(at + 3, v.store, a.token)
    {
      hide Lands;
      if i < k {
        assert LeavesOpen(fate(at + 2).poll);
      }
    }

    lemma OnwardIsKept(n: nat, v: World, i: nat, at: nat, w: World, deadline: nat, pause: nat, k: nat)
      requires Onward(n, v, i, at, w, deadline, pause, k)
      ensures i <= k && at == n + 3 * i && Kept(at, w.now, deadline, pause) && w.live == v.live
    {
    }

    lemma LoggedNow(n: nat, v: World, x: World, w: World, r: Outcome, a: PollAnswer)
      requires r == Succeeded && a == fate(n + 2).poll && a.Issued? && SameHost(v, x) && x.live == v.live + {a.token}
      requires w.store == x.store[fate(n + 3).at := a.token] && w.confirmed == x.confirmed && w.reported == x.reported
      requires Quiet() ==> w.live == x.live
      ensures Logged(n, v, r, w)
    {
    }

    lemma GrantedLands(n: nat, v: World, expiresIn: nat, interval: nat, k: nat)
      requires Granted(n, v, expiresIn, interval, k)
      ensures fate(n + 3 * k + 2).poll.Issued? && Lands(n + 3 * k + 3, v.store, fate(n + 3 * k + 2).poll.token)
    {
      hide Prompt, Lands;
    }

    lemma StartsOnward(n: nat, v: World, expiresIn: nat, interval: nat, k: nat)
      requires Granted(n, v, expiresIn, interval, k)
      ensures Onward(n, v, 0, n, v, v.now + expiresIn, interval, k)
    {
      hide Lands, Prompt;
    }

    lemma {:induction false} PromptOnce(n: nat, now: nat, deadline: nat, pause: nat, j: nat, k: nat)
      requires Prompt(n, now, deadline, pause, j) && Prompt(n, now, deadline, pause, k)
      ensures j == k
      decreases j
    {
      if j > 0 && k > 0 {
        PromptOnce(n + 3, now + fate(n).seconds + fate(n + 1).seconds, deadline, if fate(n + 2).poll == SlowDown then pause + 5 else pause, j - 1, k - 1);
      }
    }

    lemma GrantedOnce(n: nat, v: World, expiresIn: nat, interval: nat, k: nat)
      requires Granted(n, v, expiresIn, interval, k)
      ensures forall j: nat :: Granted(n, v, expiresIn, interval, j) ==> j == k
    {
      hide Lands;
      forall j: nat | Granted(n, v, expiresIn, interval, j) ensures j == k {
        PromptOnce(n, v.now, v.now + expiresIn, interval, j, k);
      }
    }

    /** What a validation at moment `n` says of a token. */
    function Judged(n: nat, v: World, token: Token): RevokeAnswer {
      Truthful(Later(v, fate(n)), token, fate(n + 1).revoke)
    }

    predicate StillGood(n: nat, v: World, token: Token) {
      Judged(n, v, token) == Done && (AckSays(n + 2) == AckConfirmed || AckSays(n + 2) == AckNotApplicable)
    }

    /** An authorization that starts at moment `n` is opened, and its grant lands. */
    predicate Opens(n: nat, v: World, k: nat) {
      fate(n + 1).yes && fate(n + 1).also && Granted(n + 2, Authorized(v, fate(n)), GRANT_SECONDS, POLL_SECONDS, k)
    }

    /** In the steady world every authorization lands at once. */
    lemma SteadyOpens(n: nat, v: World)
      requires Steady() && Straight(v)
      ensures Opens(n, v, 0) && Quiet() && fate(n + 5).at == TokenFile && fate(n + 4).poll == Issued("new")
    {
      assert fate(n + 2) == SAME && fate(n + 3) == SAME && fate(n + 4) == SAME && fate(n + 5) == SAME && fate(n + 6) == SAME;
      assert fate(n + 2 + 3 * 0 + 2) == SAME && fate(n + 2 + 3 * 0 + 3) == SAME && fate(n + 9) == SAME;
      assert Prompt(n + 2, Authorized(v, fate(n)).now, Authorized(v, fate(n)).now + GRANT_SECONDS, POLL_SECONDS, 0);
    }

    /** At moment `n` a refresh can start, and the server issues a successor. */
    predicate Rotates(n: nat, v: World) {
      && fate(n).yes && Selected(v.store).Some? && Selected(v.store).value.source != Environment
      && Arrives(Later(v, fate(n + 1)), fate(n + 2).poll).Issued?
    }

    /** After the write at moment `n` the server takes the successor back and the next write works. */
    predicate Restores(n: nat) {
      var from := if fate(n).yes then n + 2 else n + 1;
      fate(from + 1).revoke == Done && fate(from + 2).yes
    }

    /** From moment `n` on every revocation is confirmed and everything on this host works. */
    ghost predicate AllGoesWell(n: nat) { forall i :: n <= i ==> fate(i).yes && fate(i).revoke == Done }

    /** Where such a grant stands after `i` open answers. */
    predicate Onward(n: nat, v: World, i: nat, at: nat, w: World, deadline: nat, pause: nat, k: nat) {
      i <= k && at == n + 3 * i && w.dead == v.dead && w.live == v.live && Prompt(at, w.now, deadline, pause, k - i)
    }

    /** The token that came before moment `n + 3` lies where moment `n + 3` put it. */
    ghost predicate Logged(n: nat, v: World, r: Outcome, w: World) {
      && r == Succeeded && fate(n + 2).poll.Issued?
      && w.store == v.store[fate(n + 3).at := fate(n + 2).poll.token] && w.confirmed == v.confirmed && w.reported == v.reported
      && (Quiet() ==> w.live == v.live + {fate(n + 2).poll.token})
    }

    /** The token of such a grant lands on this host. */
    predicate Granted(n: nat, v: World, expiresIn: nat, interval: nat, k: nat) {
      && Prompt(n, v.now, v.now + expiresIn, interval, k)
      && fate(n + 3 * k + 2).poll.Issued? && fate(n + 3 * k + 2).poll.token !in v.dead
      && Lands(n + 3 * k + 3, v.store, fate(n + 3 * k + 2).poll.token)
    }

    method Next() returns (m: Moment)
      modifies this`turn
      ensures m == fate(old(turn)) && turn == old(turn) + 1
    {
      m := fate(turn);
      turn := turn + 1;
    }

    // -------------------------------------------------------------------------
    // The server
    // -------------------------------------------------------------------------

    /** Time passes and any credentials may end, whatever the client does. */
    method Elapse()
      requires Sound(w)
      modifies this
      ensures Sound(w) && Untouched(old(w), w) && w.live <= old(w.live) && w.confirmed == old(w.confirmed)
      ensures turn == old(turn) + 1 && w == Later(old(w), fate(old(turn)))
    {
      var m := Next();
      w := Later(w, m);
    }

    /** Asks to revoke a token. An answer is truthful, with one exception the client must allow for: a
        token issued moments ago may be called invalid while it is live. */
    method AskRevoke(token: Token) returns (a: RevokeAnswer)
      requires Sound(w)
      modifies this
      ensures Sound(w) && Untouched(old(w), w)
      ensures turn == old(turn) + 2 && a == Truthful(Later(old(w), fate(old(turn))), token, fate(old(turn) + 1).revoke)
      ensures w.confirmed == old(w.confirmed) + if a == Done || (a == InvalidToken && token !in w.recent) then {token} else {}
      ensures w.refused == old(w.refused) + if a == Done || (a == InvalidToken && token !in w.recent) then {} else {token}
    {
      Elapse();
      var m := Next();
      a := Truthful(w, token, m.revoke);
      if !(a == Done || (a == InvalidToken && token !in w.recent)) {
        w := w.(refused := w.refused + {token});
      }
      if a == Done || (a == InvalidToken && token !in w.recent) {
        w := w.(live := w.live - {token}, dead := w.dead + {token}, confirmed := w.confirmed + {token});
      }
    }

    /** Asks whether an established token is still accepted; `InvalidToken` is definitive. */
    method AskValid(token: Token) returns (a: RevokeAnswer)
      requires Sound(w)
      modifies this
      ensures Sound(w) && Untouched(old(w), w)
      ensures w.confirmed == old(w.confirmed) + if a == InvalidToken && token !in w.recent then {token} else {}
      ensures turn == old(turn) + 2 && a == Truthful(Later(old(w), fate(old(turn))), token, fate(old(turn) + 1).revoke)
      ensures w.refused == old(w.refused)
      ensures Steady() && token !in old(w).live ==> a == InvalidToken && w.live == old(w).live && w.dead <= old(w).dead + {token}
    {
      Elapse();
      var m := Next();
      a := Truthful(w, token, m.revoke);
      if a == InvalidToken && token !in w.recent {
        w := w.(live := w.live - {token}, dead := w.dead + {token}, confirmed := w.confirmed + {token});
      }
    }

    method AskAck(token: Token) returns (a: AckAnswer)
      requires Sound(w)
      modifies this
      ensures Sound(w) && Untouched(old(w), w) && w.confirmed == old(w.confirmed)
      ensures turn == old(turn) + 2 && a == fate(old(turn) + 1).ack && w == Later(old(w), fate(old(turn)))
    {
      Elapse();
      var m := Next();
      a := m.ack;
    }

    /** A token-shaped value arrives. The server never issues a token it has ended. */
    method Receive(token: Token)
      requires Sound(w) && token !in w.dead
      modifies this`w
      ensures Sound(w) && Follows(old(w), w) && token in w.recent
      ensures w == old(w).(live := old(w).live + {token}, recent := old(w).recent + {token}, received := old(w).received + {token})
    {
      w := w.(live := w.live + {token}, recent := w.recent + {token}, received := w.received + {token});
    }

    /** Polls for the token. */
    method AskToken() returns (a: PollAnswer)
      requires Sound(w) && Settled(w)
      modifies this
      ensures Sound(w) && Follows(old(w), w) && w.store == old(w.store) && w.polls == old(w.polls) + 1
      ensures w.reported == old(w.reported) && w.authorizations == old(w.authorizations)
      ensures w.received == old(w.received) + if a.Issued? || a.BadResponse? then {a.token} else {}
      ensures a.Issued? || a.BadResponse? ==> a.token in w.recent
      ensures !(a.Issued? || a.BadResponse?) ==> Settled(w)
      ensures w.confirmed == old(w.confirmed) && w.replaced == old(w.replaced)
      ensures w.stuck == old(w.stuck) && w.missed == old(w.missed) && w.refused == old(w.refused)
      ensures w.checks == old(w.checks) && w.overs == old(w.overs)
      ensures turn == old(turn) + 2 && w.now == old(w.now) + fate(old(turn)).seconds
      ensures a == Arrives(Later(old(w), fate(old(turn))), fate(old(turn) + 1).poll)
      ensures w.dead == Later(old(w), fate(old(turn))).dead
      ensures w.live == Later(old(w), fate(old(turn))).live + if a.Issued? || a.BadResponse? then {a.token} else {}
    {
      Elapse();
      w := w.(polls := w.polls + 1);
      var m := Next();
      a := Arrives(w, m.poll);
      if a.Issued? || a.BadResponse? {
        Receive(a.token);
      }
    }

    /** Asks for a successor of the current credential. */
    method AskRotate() returns (a: PollAnswer)
      requires Sound(w) && Settled(w)
      modifies this
      ensures Sound(w) && Follows(old(w), w) && w.store == old(w.store) && w.purged == old(w.purged)
      ensures w.reported == old(w.reported) && w.authorizations == old(w.authorizations)
      ensures w.received == old(w.received) + if a.Issued? || a.BadResponse? then {a.token} else {}
      ensures a.Issued? || a.BadResponse? ==> a.token in w.recent
      ensures !(a.Issued? || a.BadResponse?) ==> Settled(w)
      ensures w.confirmed == old(w.confirmed) && w.replaced == old(w.replaced) && w.refused == old(w.refused)
      ensures turn == old(turn) + 2 && a == Arrives(Later(old(w), fate(old(turn))), fate(old(turn) + 1).poll)
    {
      Elapse();
      var m := Next();
      a := Arrives(w, m.poll);
      if a.Issued? || a.BadResponse? {
        Receive(a.token);
      }
    }

    // -------------------------------------------------------------------------
    // This host
    // -------------------------------------------------------------------------

    /** Tells the operator about a token the client could not deal with. */
    method Report(token: Token)
      requires Sound(w) && token in w.refused
      modifies this`w
      ensures Sound(w) && w == old(w).(reported := old(w).reported + {token}) && Follows(old(w), w)
    {
      w := w.(reported := w.reported + {token});
    }

    /** Writes a token to one location. A failed write may have written it all the same. */
    method WriteTo(at: Location, token: Token) returns (ok: bool)
      requires Sound(w)
      modifies this
      ensures Sound(w) && Follows(old(w), w)
      ensures w.store == old(w.store) || w.store == old(w.store)[at := token]
      ensures ok ==> w.store == old(w.store)[at := token]
      ensures w == old(w).(store := w.store)
      ensures turn == old(turn) + 1 && ok == fate(old(turn)).yes
    {
      var m := Next();
      ok := m.yes;
      if ok || m.also {
        w := w.(store := w.store[at := token]);
      }
    }

    /** Persists an issued token to the keyring or the token file; hands back where, if it may be there. */
    method Persist(token: Token) returns (r: Option<Location>, ok: bool)
      requires Sound(w)
      modifies this
      ensures Sound(w) && Follows(old(w), w)
      ensures ok ==> r.Some?
      ensures w == old(w).(store := w.store)
      ensures r.None? ==> w == old(w)
      ensures r.Some? ==> r.value != Environment && (w.store == old(w.store) || w.store == old(w.store)[r.value := token])
      ensures ok <==> CanStore(old(turn))
      ensures ok ==> r == Some(fate(old(turn)).at) && w.store == old(w.store)[r.value := token] && turn == old(turn) + 2
    {
      var m := Next();
      if m.at == Environment || !m.yes {
        return None, false;
      }
      ok := WriteTo(m.at, token);
      r := Some(m.at);
    }

    /** The token lies at that location and is the one this host selects. */
    method Verify(at: Location, token: Token) returns (ok: bool)
      modifies this`turn
      ensures ok ==> Selected(w.store) == Some(Credential(token, at)) && at in w.store && w.store[at] == token
      ensures turn == old(turn) + 1 && (ok <==> fate(old(turn)).yes && Selected(w.store) == Some(Credential(token, at)))
    {
      var m := Next();
      ok := m.yes;
      if Selected(w.store) != Some(Credential(token, at)) {
        ok := false;
      }
    }

    /** Removes one location while it still holds the token captured there. An environment variable cannot
        be removed, and any removal may fail. */
    method RemoveOne(c: Credential) returns (ok: bool)
      modifies this
      ensures turn == old(turn) + 1 && (ok <==> CanRemove(old(turn), c, old(w).store)) && RemovedOne(old(w), w, c, ok)
    {
      var m := Next();
      ok := m.yes && c.source != Environment;
      if ok && c.source in w.store {
        if w.store[c.source] == c.token {
          w := w.(store := w.store - {c.source}, purged := w.purged + {c.token});
        } else {
          ok := false;
        }
      }
      if !ok {
        w := w.(stuck := w.stuck + {c.source});
      }
    }

    /** Removes material, location by location. What stays behind is known to be stuck, and what can be
        removed is. */
    method Purge(material: seq<Credential>) returns (ok: bool)
      requires Sound(w)
      modifies this
      ensures Purged(old(w), w, material, |material|)
      ensures Follows(old(w), w)
      ensures (forall i :: 0 <= i < |material| ==> material[i].token in w.confirmed) ==> Sound(w)
      ensures ok ==> forall i :: 0 <= i < |material| ==> material[i].source !in w.store && material[i].source != Environment
      ensures !ok ==> exists i :: 0 <= i < |material| && material[i].source in w.stuck
      ensures AllRemovable(old(turn), material, old(w).store) ==> ok
      ensures |material| == 1 ==> (ok <==> CanRemove(old(turn), material[0], old(w).store))
      // Captures that contradict each other remove nothing.
      ensures (exists i, j :: 0 <= i < j < |material| && Contradict(material[i], material[j])) ==> !ok && w.store == old(w).store
    {
      hide Purged, RemovedOne;
      PurgedNothing(w, material);
      if exists i, j :: 0 <= i < j < |material| && Contradict(material[i], material[j]) {
        w := w.(stuck := w.stuck + set i | 0 <= i < |material| :: material[i].source);
        AllStuck(old(w), material);
        PurgedMeans(old(w), w, material);
        return false;
      }
      ok := true;
      for i := 0 to |material|
        invariant turn == old(turn) + i && Purged(old(w), w, material, i)
        invariant ok ==> forall j :: 0 <= j < i ==> material[j].source !in w.store && material[j].source != Environment
        invariant !ok ==> exists j :: 0 <= j < i && material[j].source in w.stuck
        invariant AllRemovable(old(turn), material, old(w).store) ==> ok
        invariant |material| == 1 && i == 1 ==> (ok <==> CanRemove(old(turn), material[0], old(w).store))
        invariant i == 0 ==> ok && w == old(w)
      {
        ghost var v := w;
        var removed := RemoveOne(material[i]);
        PurgeStep(old(w), v, w, material, i, removed);
        assert AllRemovable(old(turn), material, old(w).store) ==> Removable(material[i], old(w).store) && fate(old(turn) + i).yes;
        ok := ok && removed;
      }
      PurgedMeans(old(w), w, material);
    }

    // -------------------------------------------------------------------------
    // Acknowledging and revoking
    // -------------------------------------------------------------------------

    /** Tells the server this client holds the credential, at most three times. */
    method Acknowledge(token: Token) returns (r: AckOutcome)
      requires Sound(w)
      modifies this
      ensures Sound(w) && Untouched(old(w), w)
      ensures w.confirmed == old(w).confirmed && w.refused == old(w).refused
      ensures r == AckSays(old(turn))
      ensures Quiet() ==> w.live == old(w).live
    {
      var attempt := 0;
      while attempt < ACK_ATTEMPTS
        invariant attempt <= ACK_ATTEMPTS && Sound(w) && Untouched(old(w), w) && w.confirmed == old(w).confirmed && w.refused == old(w).refused
        invariant turn == old(turn) + 2 * attempt && forall i :: 0 <= i < attempt ==> fate(old(turn) + 2 * i + 1).ack == AckFailed
        invariant Quiet() ==> w.live == old(w).live
      {
        var a := AskAck(token);
        assert attempt > 0 ==> fate(old(turn) + 2 * 0 + 1).ack == AckFailed;
        assert attempt > 1 ==> fate(old(turn) + 2 * 1 + 1).ack == AckFailed;
        match a {
          case AckDone => return AckConfirmed;
          case AckNotFound => return AckNotApplicable;
          case AckConflict => return AckWindowClosed;
          case AckFailed =>
        }
        attempt := attempt + 1;
      }
      assert fate(old(turn) + 2 * 0 + 1).ack == fate(old(turn) + 2 * 1 + 1).ack == fate(old(turn) + 2 * 2 + 1).ack == AckFailed;
      return AckUnknown;
    }

    /** Ends a token issued moments ago: only an explicit success counts. */
    method RevokeIssued(token: Token) returns (ok: bool)
      requires Sound(w) && token in w.recent
      modifies this
      ensures Sound(w) && Untouched(old(w), w)
      ensures ok ==> token in w.confirmed && w.refused == old(w).refused
      ensures !ok ==> token in w.refused
      ensures w.confirmed == old(w).confirmed + if ok then {token} else {}
      ensures ok <==> fate(old(turn) + 1).revoke == Done
      ensures turn == old(turn) + 2
    {
      var a := AskRevoke(token);
      ok := a == Done;
    }

    /** Ends an established token: being unknown to the server is as good as success. */
    method RevokeEstablished(token: Token) returns (ok: bool)
      requires Sound(w) && token !in w.recent
      modifies this
      ensures Sound(w) && Untouched(old(w), w)
      ensures ok ==> token in w.confirmed
      ensures !ok ==> token in w.refused
      ensures turn == old(turn) + 2 && (fate(old(turn) + 1).revoke == Done ==> ok)
    {
      var a := AskRevoke(token);
      ok := a == Done || a == InvalidToken;
    }

    // -------------------------------------------------------------------------
    // Device login
    // -------------------------------------------------------------------------

    /** Waits inside the grant's lifetime; a wait that would outlast it fails. */
    method Wait(deadline: nat, seconds: nat) returns (ok: bool)
      requires Sound(w)
      modifies this
      ensures Sound(w) && Follows(old(w), w) && (ok ==> Untouched(old(w), w))
      ensures ok <==> old(w).now + seconds <= w.now <= deadline
      ensures turn == old(turn) + 1
      ensures w == Later(old(w), fate(old(turn))).(missed := old(w).missed + if ok then 0 else 1)
      ensures Steady() && seconds == 5 && old(w).now + 5 <= deadline ==> ok && w.live == old(w).live && w.dead == old(w).dead
    {
      var from := w.now;
      Elapse();
      ok := from + seconds <= w.now <= deadline;
      if !ok {
        w := w.(missed := w.missed + 1);
      }
    }

    /** The state of the grant itself, which no error value can stand in for. */
    method StateOfGrant(deadline: nat) returns (s: GrantState)
      requires Sound(w)
      modifies this
      ensures Sound(w)
      ensures s == GrantExpired ==> deadline <= w.now
      ensures deadline < w.now ==> s != GrantLive
      ensures turn == old(turn) + 1
      ensures w == old(w).(checks := old(w).checks + 1, overs := old(w).overs + if s == GrantLive then 0 else 1)
      ensures s != GrantLive ==> fate(old(turn)).grant != GrantLive || deadline < w.now
    {
      var m := Next();
      s := m.grant;
      if s == GrantExpired && w.now < deadline { s := GrantLive; }
      if s == GrantLive && deadline < w.now { s := GrantExpired; }
      w := w.(checks := w.checks + 1, overs := if s == GrantLive then w.overs else w.overs + 1);
    }

    /** An issued token is stored and verified, or revoked and its leftovers purged, or reported. */
    method KeepIssued(token: Token) returns (r: Outcome)
      requires Sound(w) && w.received == {token} && token in w.recent
      modifies this
      ensures Sound(w) && Follows(old(w), w) && Settled(w) && w.received == {token}
      ensures w.polls == old(w).polls && w.authorizations == old(w).authorizations && w.missed == old(w).missed
      ensures w.checks == old(w).checks && w.overs == old(w).overs
      ensures r != Restart && (r == Succeeded <==> Lands(old(turn), old(w).store, token))
      // A token that was stored and read back stays, whatever the acknowledgement says; one that was ended
      // lies nowhere but where its removal failed.
      ensures ReadsBack(old(turn), old(w).store, token) ==>
        && w.store == old(w).store[fate(old(turn)).at := token] && w.confirmed == old(w).confirmed && w.reported == old(w).reported
        && (Quiet() ==> w.live == old(w).live)
      ensures token in w.confirmed && token !in old(w).confirmed ==>
        forall at :: at in w.store && w.store[at] == token ==> at in w.stuck || (at in old(w).store && old(w).store[at] == token)
      ensures Adds(old(w), w)
    {
      hide Follows, Untouched, Selected, AckSays;
      var at, stored := Persist(token);
      if stored {
        stored := Verify(at.value, token);
      }
      ghost var v := w;
      if !stored {
        Discard(token, at);
        FollowsOn(old(w), v, w);
        return LoginFailed;
      }
      assert Stored(w, token);
      var ack := Acknowledge(token);
      assert Quiet() ==> w.live == old(w).live;
      UntouchedMeans(v, w);
      FollowsOn(old(w), v, w);
      assert Stored(w, token);
      return if ack == AckConfirmed then Succeeded else LoginFailed;
    }

    /** A token that could not be stored is ended, and what the attempt may have left is removed; when it
        cannot be ended it is reported and left where it is. */
    method Discard(token: Token, at: Option<Location>)
      requires Sound(w) && w.received == {token} && token in w.recent && at != Some(Environment)
      modifies this
      ensures Sound(w) && Follows(old(w), w) && Settled(w) && w.received == {token} && w.replaced == old(w).replaced
      ensures w.polls == old(w).polls && w.authorizations == old(w).authorizations && w.missed == old(w).missed
      ensures w.checks == old(w).checks && w.overs == old(w).overs
      ensures w.store == old(w).store || (at.Some? && w.store == old(w).store - {at.value} && at.value in old(w).store
        && old(w).store[at.value] == token && token in w.confirmed)
      ensures token in w.confirmed && token !in old(w).confirmed && at.Some? && at.value in w.store && w.store[at.value] == token ==>
        at.value in w.stuck
    {
      hide Follows, Untouched, Selected;
      ghost var v := w;
      var revoked := RevokeIssued(token);
      UntouchedMeans(v, w);
      if !revoked {
        ghost var u := w;
        Report(token);
        FollowsOn(old(w), u, w);
        return;
      }
      if at.Some? {
        ghost var u := w;
        var c := Credential(token, at.value);
        var cleaned := Purge([c]);
        assert [c][0] == c;
        FollowsOn(old(w), u, w);
      }
    }

    /** A token in a response the client must not use is revoked or reported. */
    method DropIssued(token: Token)
      requires Sound(w) && w.received == {token} && token in w.recent
      modifies this
      ensures Sound(w) && Follows(old(w), w) && Settled(w) && w.received == {token}
      ensures w.store == old(w).store && w.purged == old(w).purged && w.replaced == old(w).replaced
      ensures w.polls == old(w).polls && w.authorizations == old(w).authorizations && w.missed == old(w).missed
      ensures w.checks == old(w).checks && w.overs == old(w).overs
      ensures token in w.reported - old(w).reported ==> token in w.refused
    {
      var revoked := RevokeIssued(token);
      if !revoked {
        Report(token);
      }
    }

    /** One wait and, when it was kept, one poll. */
    method WaitAndPoll(deadline: nat, pause: nat) returns (a: Option<PollAnswer>)
      requires Sound(w) && w.received == {}
      modifies this
      ensures Sound(w) && Follows(old(w), w) && w.authorizations == old(w).authorizations
      ensures SameHost(old(w), w.(missed := old(w).missed)) && w.missed == old(w).missed + if a.None? then 1 else 0
      ensures w.checks == old(w).checks
      ensures w.polls == old(w).polls + if a.None? then 0 else 1
      ensures w.received == if a.Some? && (a.value.Issued? || a.value.BadResponse?) then {a.value.token} else {}
      ensures a.Some? && (a.value.Issued? || a.value.BadResponse?) ==> a.value.token in w.recent
      ensures a.Some? ==> old(w).now + pause <= deadline && old(w).now + pause <= w.now
      ensures Kept(old(turn), old(w).now, deadline, pause) ==>
        && a == Some(Arrives(old(w), fate(old(turn) + 2).poll)) && turn == old(turn) + 3
        && w.now == old(w).now + fate(old(turn)).seconds + fate(old(turn) + 1).seconds
        && w.dead == old(w).dead && w.live == old(w).live + w.received
    {
      hide Follows, Untouched, Settled;
      NothingReceived(w);
      ghost var v := w;
      var kept := Wait(deadline, pause);
      if !kept {
        return None;
      }
      NothingReceived(w);
      ghost var u := w;
      var answer := AskToken();
      FollowsOn(v, u, w);
      return Some(answer);
    }

    /** The answer that closes a grant: a token is kept or dropped, an invalidated grant is started anew,
        everything else fails the login. */
    method CloseGrant(a: PollAnswer) returns (r: Outcome)
      requires Sound(w) && !LeavesOpen(a)
      requires w.received == if a.Issued? || a.BadResponse? then {a.token} else {}
      requires a.Issued? || a.BadResponse? ==> a.token in w.recent
      modifies this
      ensures Sound(w) && Follows(old(w), w) && Settled(w) && Adds(old(w), w) && w.received == old(w).received
      ensures w.polls == old(w).polls && w.authorizations == old(w).authorizations && w.missed == old(w).missed
      ensures w.checks == old(w).checks && w.overs == old(w).overs
      ensures r == Restart <==> a == InvalidGrant
      ensures r == Restart ==> w == old(w)
      ensures r == Succeeded <==> a.Issued? && Lands(old(turn), old(w).store, a.token)
      ensures r == Succeeded ==>
        && Selected(w.store) == Some(Credential(a.token, fate(old(turn)).at))
        && w.store == old(w).store[fate(old(turn)).at := a.token] && w.confirmed == old(w).confirmed && w.reported == old(w).reported
        && (Quiet() ==> w.live == old(w).live)
    {
      hide Follows, Untouched, Selected, AckSays, Settled;
      SameFollows(w);
      KeepsSame(w);
      NothingReceived(w);
      match a {
        case Issued(token) => r := KeepIssued(token);
        case BadResponse(token) =>
          DropIssued(token);
          r := LoginFailed;
        case InvalidGrant => r := Restart;
        case _ => r := LoginFailed;
      }
    }

    /** The poll loop of one grant, against any answers: it ends, within the grant's lifetime, having
        polled no faster than the server asked, and with every token received dealt with. */
    method PollGrant(expiresIn: nat, interval: nat) returns (r: Outcome, waits: seq<nat>, answers: seq<PollAnswer>)
      requires Sound(w) && w.received == {} && 0 < interval && 0 < expiresIn
      modifies this
      ensures Sound(w) && Follows(old(w), w) && Settled(w) && Adds(old(w), w)
      ensures Paced(interval, waits, answers) && |answers| * interval <= expiresIn
      ensures w.polls == old(w).polls + |answers| && w.authorizations == old(w).authorizations
      // It polls on after every answer that leaves the grant open, and ends on such an answer only with a
      // missed wait, or a lost response on a grant that is over.
      ensures forall i :: 0 <= i < |answers| - 1 ==> LeavesOpen(answers[i])
      ensures answers == [] || LeavesOpen(answers[|answers| - 1]) ==>
        || w.missed == old(w).missed + 1
        || (answers != [] && answers[|answers| - 1] == TimedOut && GrantOver(turn, old(w).now + expiresIn, w.now))
      ensures w.checks == old(w).checks + TimeOuts(answers)
      ensures w.overs == old(w).overs || (w.overs == old(w).overs + 1 && r == LoginFailed && answers != [] && answers[|answers| - 1] == TimedOut)
      // A grant whose token comes in time and lands succeeds, after however many open answers.
      ensures forall k: nat :: Granted(old(turn), old(w), expiresIn, interval, k) ==> Logged(old(turn) + 3 * k, old(w), r, w)
      ensures r == Restart <==> answers != [] && answers[|answers| - 1] == InvalidGrant
      ensures r == Restart ==> w.received == {} && w.store == old(w).store
      ensures r == Succeeded ==> Selected(w.store).Some? && Selected(w.store).value.token in w.received
    {
      hide Follows, Selected, Adds, Settled, Granted, Lands, Paced, Sound, Logged, Untouched;
      var closing;
      closing, waits, answers := PollUntilClosed(expiresIn, interval);
      NothingReceived(w);
      AddsNothing(old(w), w);
      if closing.None? {
        return LoginFailed, waits, answers;
      }
      ghost var x, n := w, turn;
      r := CloseGrant(closing.value);
      FollowsOn(old(w), x, w);
      AddsOn(old(w), x, w);
      forall k: nat | Granted(old(turn), old(w), expiresIn, interval, k) ensures Logged(old(turn) + 3 * k, old(w), r, w) {
        GrantedLands(old(turn), old(w), expiresIn, interval, k);
        LoggedNow(old(turn) + 3 * k, old(w), x, w, r, closing.value);
      }
    }

    /** Waits and polls while the grant is open; hands back the answer that closed it, or nothing when a wait
        was missed or the grant was over first. */
    method PollUntilClosed(expiresIn: nat, interval: nat) returns (closing: Option<PollAnswer>, waits: seq<nat>, answers: seq<PollAnswer>)
      requires Sound(w) && w.received == {} && 0 < interval && 0 < expiresIn
      modifies this
      ensures Sound(w) && Follows(old(w), w) && SameHost(old(w), w.(missed := old(w).missed, overs := old(w).overs))
      // Every lost response is followed by a look at the grant, and nothing follows one that found it over.
      ensures w.checks == old(w).checks + TimeOuts(answers)
      ensures w.overs == old(w).overs || (w.overs == old(w).overs + 1 && closing.None? && answers != [] && answers[|answers| - 1] == TimedOut)
      ensures closing.None? ==> (w.missed == old(w).missed + 1 <==> w.overs == old(w).overs)
      ensures Paced(interval, waits, answers) && |answers| * interval <= expiresIn
      ensures w.polls == old(w).polls + |answers| && w.authorizations == old(w).authorizations
      ensures closing.None? ==> w.received == {} && forall i :: 0 <= i < |answers| ==> LeavesOpen(answers[i])
      ensures closing.None? ==> w.missed == old(w).missed + 1 || (answers != [] && answers[|answers| - 1] == TimedOut && GrantOver(turn, old(w).now + expiresIn, w.now))
      ensures closing.Some? ==>
        && answers != [] && answers[|answers| - 1] == closing.value && !LeavesOpen(closing.value) && w.missed == old(w).missed
        && (forall i :: 0 <= i < |answers| - 1 ==> LeavesOpen(answers[i]))
        && w.received == (if closing.value.Issued? || closing.value.BadResponse? then {closing.value.token} else {})
        && (closing.value.Issued? || closing.value.BadResponse? ==> closing.value.token in w.recent)
      ensures forall k: nat :: Granted(old(turn), old(w), expiresIn, interval, k) ==>
        && turn == old(turn) + 3 * k + 3 && closing == Some(fate(old(turn) + 3 * k + 2).poll)
        && w.live == old(w).live + w.received
    {
      hide Follows, Selected, Adds, Settled, Prompt, Granted, Lands, Polling, Paced, Onward, Kept, Sound, Arrives, Logged, Later, TimeOuts, SlowDowns;
      waits, answers := [], [];
      var deadline := w.now + expiresIn;
      var pause := interval;
      ghost var granted := exists k: nat :: Granted(turn, w, expiresIn, interval, k);
      ghost var k: nat := 0;
      if granted {
        k :| Granted(turn, w, expiresIn, interval, k);
        GrantedOnce(turn, w, expiresIn, interval, k);
        StartsOnward(turn, w, expiresIn, interval, k);
      }
      ghost var waited := 0;
      StartsPolling(w, expiresIn, interval);
      while true
        invariant Sound(w) && w.received == {} && Polling(old(w), w, expiresIn, interval, pause, waited, waits, answers)
        invariant forall i :: 0 <= i < |answers| ==> LeavesOpen(answers[i])
        invariant granted ==> Onward(old(turn), old(w), |answers|, turn, w, deadline, pause, k)
        decreases deadline - w.now
      {
        ghost var u, n := w, turn;
        if granted { OnwardIsKept(old(turn), old(w), |answers|, n, u, deadline, pause, k); }
        var answer := WaitAndPoll(deadline, pause);
        if answer.None? {
          MissedPoll(old(w), u, w, expiresIn, interval, pause, waited, waits, answers);
          return None, waits, answers;
        }
        var a := answer.value;
        if granted { OnwardStep(old(turn), old(w), |answers|, n, u, w, expiresIn, interval, pause, k, a); }
        PollStep(old(w), u, w, expiresIn, interval, pause, waited, waits, answers, a);
        waited, waits, answers := waited + pause, waits + [pause], answers + [a];
        if !LeavesOpen(a) {
          return Some(a), waits, answers;
        }
        if a == SlowDown {
          pause := pause + 5;
        }
        if a == TimedOut {
          CheckedFollows(old(w), w);
          var s := StateOfGrant(deadline);
          if s != GrantLive {
            return None, waits, answers;
          }
        }
      }
    }

    /** One authorization: started, its address checked, then polled. */
    method Attempt() returns (r: Outcome)
      requires Sound(w) && w.received == {}
      modifies this
      ensures Sound(w) && Follows(old(w), w) && Settled(w)
      ensures w.authorizations == old(w).authorizations + 1
      ensures w.polls <= old(w).polls + GRANT_SECONDS / POLL_SECONDS
      ensures r == Restart ==> w.received == {}
      ensures r == Succeeded ==> Selected(w.store).Some? && Selected(w.store).value.token in w.received
      ensures Adds(old(w), w)
      ensures r == Restart ==> w.store == old(w).store
      ensures !(fate(old(turn) + 1).yes && fate(old(turn) + 1).also) ==> r == LoginFailed && w.polls == old(w).polls && w.store == old(w).store
      ensures forall k: nat :: Opens(old(turn), old(w), k) ==> Logged(old(turn) + 2 + 3 * k, Authorized(old(w), fate(old(turn))), r, w)
    {
      hide Selected, Paced, Follows, Prompt, Lands, Settled;
      NothingReceived(w);
      KeepsSame(w);
      SameFollows(w);
      Elapse();
      w := w.(authorizations := w.authorizations + 1);
      assert w == Authorized(old(w), fate(old(turn)));
      var m := Next();
      NothingReceived(w);
      AuthorizedFollows(old(w), w, fate(old(turn)));
      if !m.yes || !m.also {
        return LoginFailed;
      }
      ghost var v := w;
      var waits, answers;
      r, waits, answers := PollGrant(GRANT_SECONDS, POLL_SECONDS);
      FollowsOn(old(w), v, w);
    }

    /** A saved credential before a new login: still valid, confirmed inactive and purged, or retained.
        Answers whether a new login may start. */
    method SettleSaved(saved: Credential) returns (start: bool, code: nat)
      requires Sound(w) && saved.source in w.store && w.store[saved.source] == saved.token
      requires w.recent == {} && w.received == {}
      modifies this
      ensures Sound(w) && Follows(old(w), w) && w.received == {} && w.recent == {}
      ensures w.authorizations == old(w).authorizations && w.polls == old(w).polls
      // It is left alone exactly when it is valid and acknowledged or owes no acknowledgement; once it is
      // inactive, or its window closed, a new login starts unless it could not be ended or removed.
      ensures !start && code == 0 <==> StillGood(old(turn), old(w), saved.token)
      ensures code <= 1 && (start ==> code == 0)
      ensures Judged(old(turn), old(w), saved.token) == InvalidToken ==> start || saved.source in w.stuck
      ensures Judged(old(turn), old(w), saved.token) == Done && AckSays(old(turn) + 2) == AckWindowClosed ==>
        start || saved.token in w.refused || saved.source in w.stuck
      ensures start ==> saved.token in w.confirmed && saved.source !in w.store
      ensures !start && code == 0 ==> w.store == old(w).store
      ensures saved.token !in w.confirmed ==> w.store == old(w).store
      ensures w.replaced == old(w).replaced && w.reported == old(w).reported
      ensures w.store == old(w).store || w.store == old(w).store - {saved.source}
      ensures start ==> saved.source != Environment && w.store == old(w).store - {saved.source}
      ensures Steady() && Dropped(old(w), saved) ==> start && DroppedTo(old(w), saved, w)
    {
      hide Follows, Selected;
      var valid := AskValid(saved.token);
      ghost var v := w;
      UntouchedMeans(old(w), w);
      match valid {
        case Failed => return false, 1;
        case InvalidToken =>
        case Done =>
          var ack := Acknowledge(saved.token);
          UntouchedFollows(old(w), v, w);
          UntouchedMeans(v, w);
          match ack {
            case AckConfirmed => return false, 0;
            case AckNotApplicable => return false, 0;
            case AckUnknown => return false, 1;
            case AckWindowClosed =>
              ghost var x := w;
              var revoked := RevokeEstablished(saved.token);
              UntouchedFollows(old(w), x, w);
              UntouchedMeans(x, w);
              if !revoked { return false, 1; }
          }
      }
      ghost var u := w;
      var cleaned := Purge([saved]);
      FollowsOn(old(w), u, w);
      assert [saved][0] == saved;
      if !cleaned {
        return false, 1;
      }
      return true, 0;
    }

    /** Authorizations until one ends the login: an invalidated grant is started anew, once. */
    method Authorize() returns (code: nat, ghost outcomes: seq<Outcome>)
      requires Sound(w) && w.received == {}
      modifies this
      ensures Sound(w) && Follows(old(w), w) && Settled(w) && Adds(old(w), w)
      ensures w.authorizations == old(w).authorizations + |outcomes| && 0 < |outcomes| <= MAX_AUTHORIZATIONS
      ensures w.polls <= old(w).polls + |outcomes| * (GRANT_SECONDS / POLL_SECONDS)
      ensures forall i :: 0 <= i < |outcomes| - 1 ==> outcomes[i] == Restart
      ensures outcomes[|outcomes| - 1] == Restart ==> |outcomes| == MAX_AUTHORIZATIONS
      ensures code <= 1 && (code == 0 <==> outcomes[|outcomes| - 1] == Succeeded)
      ensures code == 0 ==> Selected(w.store).Some? && Selected(w.store).value.token in w.received
      ensures forall k: nat :: Opens(old(turn), old(w), k) ==>
        code == 0 && Logged(old(turn) + 2 + 3 * k, Authorized(old(w), fate(old(turn))), Succeeded, w)
    {
      hide Follows, Adds, Opens, Logged, Settled;
      outcomes := [];
      var authorization := 0;
      SameFollows(w);
      while authorization < MAX_AUTHORIZATIONS
        invariant authorization == |outcomes| <= MAX_AUTHORIZATIONS
        invariant Sound(w) && Follows(old(w), w) && w.received == {}
        invariant w.store == old(w).store && w.replaced == old(w).replaced
        invariant authorization == 0 ==> w == old(w) && turn == old(turn)
        invariant authorization > 0 ==> forall k: nat :: !Opens(old(turn), old(w), k)
        invariant forall i :: 0 <= i < |outcomes| ==> outcomes[i] == Restart
        invariant w.authorizations == old(w).authorizations + authorization
        invariant w.polls <= old(w).polls + authorization * (GRANT_SECONDS / POLL_SECONDS)
      {
        ghost var v, n := w, turn;
        var r := Attempt();
        FollowsOn(old(w), v, w);
        AddsOn(old(w), v, w);
        forall k: nat | Opens(n, v, k) ensures r == Succeeded { LoggedIsSuccess(n + 2 + 3 * k, Authorized(v, fate(n)), r, w); }
        authorization, outcomes := authorization + 1, outcomes + [r];
        if r == Succeeded {
          return 0, outcomes;
        }
        if r == LoginFailed {
          return 1, outcomes;
        }
        AddsMeans(v, w);
      }
      AddsNothing(old(w), w);
      NothingReceived(w);
      return 1, outcomes;
    }

    lemma LoggedIsSuccess(n: nat, v: World, r: Outcome, w: World)
      requires Logged(n, v, r, w)
      ensures r == Succeeded
    {
    }

    /** Logging in: at most two authorizations, and every token received is accounted for. `between` and
        `from` are the world and the moment in which the authorizations start, if they do. */
    method Login() returns (code: nat, ghost outcomes: seq<Outcome>, ghost between: World, ghost from: nat)
      requires Sound(w) && w.recent == {} && w.received == {}
      modifies this
      ensures Sound(w) && Follows(old(w), w) && Settled(w)
      ensures w.authorizations == old(w).authorizations + |outcomes| && |outcomes| <= MAX_AUTHORIZATIONS
      ensures w.polls <= old(w).polls + |outcomes| * (GRANT_SECONDS / POLL_SECONDS)
      ensures code == 0 ==> Selected(w.store).Some?
      // A second authorization follows an invalidated one only, and its outcome is the login's.
      ensures forall i :: 0 <= i < |outcomes| - 1 ==> outcomes[i] == Restart
      ensures outcomes != [] && outcomes[|outcomes| - 1] == Restart ==> |outcomes| == MAX_AUTHORIZATIONS
      ensures outcomes != [] ==> (code == 0 <==> outcomes[|outcomes| - 1] == Succeeded)
      // With nothing saved it is attempted at once, and wherever it starts it succeeds when the grant
      // lands; a good saved credential is answered with success and no authorization.
      ensures fate(old(turn)).yes && Selected(old(w).store).None? ==> outcomes != [] && from == old(turn) + 1 && between == old(w)
      ensures forall k: nat :: outcomes != [] && Opens(from, between, k) ==>
        code == 0 && Logged(from + 2 + 3 * k, Authorized(between, fate(from)), Succeeded, w)
      ensures fate(old(turn)).yes && Selected(old(w).store).Some? ==>
        (outcomes == [] && code == 0 <==> StillGood(old(turn) + 1, old(w), Selected(old(w).store).value.token))
      ensures outcomes == [] && code == 0 ==> fate(old(turn)).yes && w.store == old(w).store
      // A credential leaves its place only confirmed inactive, but for the token file's when the keyring
      // held another: that one may be written over.
      ensures Keeps(old(w), w, if TwoHeld(old(w).store) then {TokenFile} else {}) && w.replaced == old(w).replaced
      ensures OneHeld(old(w).store) ==> OneHeld(w.store)
      ensures Steady() && Selected(old(w).store).Some? && Dropped(old(w), Selected(old(w).store).value) ==>
        outcomes != [] && DroppedTo(old(w), Selected(old(w).store).value, between)
    {
      hide Follows, Keeps, Opens, Logged, Settled, StillGood, Adds, Selected, TwoHeld, OneHeld;
      outcomes, between, from := [], w, turn;
      SameFollows(w);
      KeepsSame(w);
      NothingReceived(w);
      SelectedIsStored(w.store);
      var m := Next();
      if !m.yes {
        return 1, outcomes, between, from;
      }
      var saved := Selected(w.store);
      if saved.Some? {
        ghost var v := w;
        var start, done := SettleSaved(saved.value);
        SettledKeeps(v, w, saved.value);
        NothingReceived(w);
        if !start {
          HoldsLess(old(w).store, w.store);
          return done, outcomes, between, from;
        }
      }
      between, from := w, turn;
      SelectedGone(old(w).store, between.store);
      FollowsMeans(old(w), between);
      code, outcomes := Authorize();
      FollowsOn(old(w), between, w);
      FollowsMeans(between, w);
      AddsMeans(between, w);
      LoginKeeps(old(w), between, between, w);
      LoginHolds(old(w).store, between.store, w.store);
    }

    /** What the steady world's login leaves. */
    lemma SteadyLogged(n: nat, v: World, w: World)
      requires Steady() && Straight(v) && Logged(n + 2 + 3 * 0, Authorized(v, fate(n)), Succeeded, w)
      ensures w.store == v.store[TokenFile := "new"] && w.live == v.live + {"new"} && w.confirmed == v.confirmed && w.reported == v.reported
    {
      SteadyOpens(n, v);
      assert fate(n) == SAME && fate(n + 2 + 3 * 0 + 2) == SAME && fate(n + 2 + 3 * 0 + 3) == SAME;
    }

    // -------------------------------------------------------------------------
    // Refresh
    // -------------------------------------------------------------------------

    /** Takes a successor back with the receipt of its rotation: only an explicit success counts. */
    method Rollback(successor: Token) returns (ok: bool)
      requires Sound(w) && successor in w.recent
      modifies this
      ensures Sound(w) && Untouched(old(w), w)
      ensures ok ==> successor in w.confirmed
      ensures !ok ==> successor in w.refused
      ensures turn == old(turn) + 2 && (ok <==> fate(old(turn) + 1).revoke == Done)
    {
      var a := AskRevoke(successor);
      ok := a == Done;
    }

    /** Replacing the saved credential by a successor, in its own location: no other location is touched,
        and that one holds the credential it held or the successor the server issued. */
    method Refresh() returns (code: nat)
      requires Sound(w) && w.recent == {} && w.received == {}
      modifies this
      ensures Sound(w) && Follows(old(w), w) && Settled(w) && w.purged == old(w).purged
      ensures code == 0 ==> Selected(w.store).Some? && Selected(w.store).value.token in w.received
      ensures w.store == old(w).store || RefreshedTo(old(w), w)
      // It succeeds exactly when a persistent credential gets a successor that is written and read back; a
      // successor that could not be stored is taken back and the credential restored, unless that fails.
      ensures code == 0 <==> Rotates(old(turn), old(w)) && fate(old(turn) + 3).yes && fate(old(turn) + 4).yes
      ensures Rotates(old(turn), old(w)) && code != 0 && Restores(old(turn) + 3) ==> w.store == old(w).store && w.reported == old(w).reported
      ensures w.replaced == old(w).replaced + if w.store == old(w).store then {} else {Selected(old(w).store).value.token}
    {
      hide Follows, Untouched, RefreshedTo, Settled, Later, Arrives, Sound, Selected, Restores;
      SameFollows(w);
      NothingReceived(w);
      var saved := Selected(w.store);
      var m := Next();
      if !m.yes || saved.None? || saved.value.source == Environment {
        return 1;
      }
      var a := AskRotate();
      ghost var v := w;
      if !a.Issued? {
        if a.BadResponse? {
          DropIssued(a.token);
          FollowsOn(old(w), v, w);
        }
        return 1;
      }
      FollowsOn(old(w), v, w);
      var stored := Replace(saved.value, a.token);
      FollowsOn(old(w), v, w);
      code := if stored then 0 else 1;
      ghost var x := w;
      NoteReplaced(saved.value);
      FollowsOn(old(w), x, w);
      SameToken(old(w), w, saved.value, a.token);
    }

    /** Writes the successor over the saved credential and reads it back, or takes it back. */
    method Replace(saved: Credential, successor: Token) returns (ok: bool)
      requires Sound(w) && w.received == {successor} && successor in w.recent && Selected(w.store) == Some(saved)
      modifies this
      ensures Sound(w) && Follows(old(w), w) && Settled(w) && w.received == {successor}
      ensures w.purged == old(w).purged && w.replaced == old(w).replaced
      ensures ok <==> fate(old(turn)).yes && fate(old(turn) + 1).yes
      ensures w.store == old(w).store || w.store == old(w).store[saved.source := successor]
      ensures ok ==> w.store == old(w).store[saved.source := successor] && Selected(w.store) == Some(Credential(successor, saved.source))
      ensures !ok && Restores(old(turn)) ==> w.store == old(w).store && w.reported == old(w).reported
    {
      hide Follows, Settled;
      SuccessorIsSelected(w.store, saved, successor);
      ok := WriteTo(saved.source, successor);
      ghost var v := w;
      if ok {
        ok := Verify(saved.source, successor);
      }
      if ok {
        StoredIsSettled(w, saved.source, successor);
      } else {
        TakeBack(saved, successor);
        FollowsOn(old(w), v, w);
      }
    }

    /** The successor could not be stored: it is taken back and the saved credential restored, or it is
        reported. */
    method TakeBack(saved: Credential, successor: Token)
      requires Sound(w) && w.received == {successor} && successor in w.recent
      modifies this
      ensures Sound(w) && Follows(old(w), w) && Settled(w) && w.received == {successor}
      ensures w.purged == old(w).purged && w.replaced == old(w).replaced
      ensures w.store == old(w).store || w.store == old(w).store[saved.source := saved.token]
      // Taken back means restored, unless the write fails; it is reported only when it was not.
      ensures fate(old(turn) + 1).revoke == Done ==> w.reported == old(w).reported && successor in w.confirmed
      ensures fate(old(turn) + 1).revoke == Done && fate(old(turn) + 2).yes ==> w.store == old(w).store[saved.source := saved.token]
      ensures fate(old(turn) + 1).revoke != Done ==> successor in w.reported && w.store == old(w).store
    {
      var rolledBack := Rollback(successor);
      if !rolledBack {
        Report(successor);
        return;
      }
      ghost var v := w;
      var restored := WriteTo(saved.source, saved.token);
      FollowsOn(old(w), v, w);
      if restored {
        restored := Verify(saved.source, saved.token);
      }
    }

    /** The saved credential no longer lies where it lay: its successor took its place. */
    method NoteReplaced(saved: Credential)
      requires Sound(w)
      modifies this
      ensures Sound(w) && Follows(old(w), w) && (Settled(old(w)) ==> Settled(w))
      ensures w == old(w).(replaced := old(w).replaced +
        if saved.source in old(w).store && old(w).store[saved.source] == saved.token then {} else {saved.token})
    {
      if !(saved.source in w.store && w.store[saved.source] == saved.token) {
        w := w.(replaced := w.replaced + {saved.token});
      }
    }

    // -------------------------------------------------------------------------
    // Logout
    // -------------------------------------------------------------------------

    /** Every location that holds a credential, or nothing when one could not be read. */
    method Collect() returns (material: Option<seq<Credential>>)
      modifies this`turn
      ensures turn == old(turn) + 1 && (material.Some? <==> fate(old(turn)).yes)
      ensures material.Some? ==> Lists(w.store, material.value)
    {
      var m := Next();
      if !m.yes {
        return None;
      }
      MaterialIsAll(w.store);
      return Some(Held(w.store, Environment) + Held(w.store, Keyring) + Held(w.store, TokenFile));
    }

    /** Logging out: first every distinct credential is ended, then everything is removed. */
    method Logout(local: bool) returns (code: nat)
      requires Sound(w) && w.recent == {} && w.received == {}
      modifies this
      ensures Follows(old(w), w) && Settled(w)
      ensures !local ==> Sound(w)
      ensures !local && w.store != old(w).store ==>
        forall at :: at in old(w).store ==> old(w).store[at] in w.confirmed
      ensures !local ==> Keeps(old(w), w, {})
      ensures w.store.Keys <= old(w).store.Keys && w.replaced == old(w).replaced
      // It succeeds, and leaves nothing, when there is something to remove, every token is ended and every
      // removal works; with --local no token is ended at all.
      ensures code <= 1 && (code == 0 ==> w.store == map[])
      ensures old(w).store != map[] && Environment !in old(w).store && AllGoesWell(old(turn)) ==> code == 0
      ensures local ==> w.confirmed == old(w).confirmed && w.refused == old(w).refused
      ensures local && old(w).store == map[] ==> (code == 0 <==> fate(old(turn)).yes)
    {
      hide Follows, Untouched, Settled, Selected, Later, Truthful, CanRemove, AllRemovable, AllGoesWell, Purged, Keeps, Lists, Sound;
      KeepsSame(w);
      NothingReceived(w);
      SameFollows(w);
      var material := Collect();
      if material.None? || material.value == [] {
        NothingCollected(old(turn), old(w).store, material);
        return if local && material.Some? then 0 else 1;
      }
      if local {
        LaterGoesWell(old(turn), turn);
        CanAllGo(turn, material.value, w.store);
        ghost var v := w;
        var cleaned := Purge(material.value);
        PurgedListed(old(w), v, w, material.value);
        NothingLeft(old(w).store, w.store, material.value);
        NothingReceived(w);
        return if cleaned then 0 else 1;
      }
      LaterGoesWell(old(turn), turn);
      var tokens := DistinctTokens(material.value);
      ghost var v := w;
      ghost var n := turn;
      var ended := EndAll(tokens);
      LaterGoesWell(n, turn);
      UntouchedFollows(old(w), v, w);
      UntouchedMeans(v, w);
      NothingReceived(w);
      if !ended {
        KeepsStore(old(w), w);
        return 1;
      }
      ghost var u := w;
      assert forall j :: 0 <= j < |material.value| ==> material.value[j].token in tokens;
      CanAllGo(turn, material.value, w.store);
      var cleaned := Purge(material.value);
      PurgedListed(old(w), u, w, material.value);
      NothingLeft(old(w).store, w.store, material.value);
      NothingReceived(w);
      FollowsOn(old(w), u, w);
      return if cleaned then 0 else 1;
    }

    /** Ends established tokens one by one, stopping at the first that could not be ended. */
    method EndAll(tokens: seq<Token>) returns (ok: bool)
      requires Sound(w) && w.recent == {}
      modifies this
      ensures Sound(w) && Untouched(old(w), w) && old(turn) <= turn
      ensures ok ==> forall j :: 0 <= j < |tokens| ==> tokens[j] in w.confirmed
      ensures !ok ==> exists j :: 0 <= j < |tokens| && tokens[j] in w.refused
      ensures AllGoesWell(old(turn)) ==> ok
    {
      hide Follows, Later, Truthful;
      SameFollows(w);
      for i := 0 to |tokens|
        invariant Sound(w) && Untouched(old(w), w) && w.recent == {} && old(turn) <= turn
        invariant forall j :: 0 <= j < i ==> tokens[j] in w.confirmed
      {
        ghost var v := w;
        ok := RevokeEstablished(tokens[i]);
        UntouchedOn(old(w), v, w);
        if !ok {
          return;
        }
      }
      ok := true;
    }

    lemma LaterGoesWell(n: nat, m: nat)
      requires n <= m
      ensures AllGoesWell(n) ==> AllGoesWell(m)
    {
    }

    lemma NothingCollected(n: nat, store: map<Location, Token>, material: Option<seq<Credential>>)
      requires material.Some? <==> fate(n).yes
      requires material.Some? ==> material.value == [] && Lists(store, material.value)
      ensures AllGoesWell(n) ==> store == map[]
      ensures material.Some? ==> store == map[]
    {
      assert material.Some? ==> store.Keys == {};
    }

    lemma CanAllGo(n: nat, material: seq<Credential>, store: map<Location, Token>)
      requires Lists(store, material)
      ensures Environment !in store && AllGoesWell(n) ==> AllRemovable(n, material, store)
    {
    }

    /** A run of commands, in any order. All that is purged is dead. A credential in the environment or
        the keyring leaves its place only dead or replaced by the successor a refresh was issued; so
        does one in the token file, in every run that starts with at most one of keyring and token
        file in use. */
    method Session(commands: seq<Command>)
      requires Sound(w)
      modifies this
      ensures Sound(w) && w.purged <= w.dead
      ensures forall at :: at in old(w).store && (at != TokenFile || OneHeld(old(w).store)) ==>
        (at in w.store && w.store[at] == old(w).store[at]) || old(w).store[at] in w.dead || old(w).store[at] in w.replaced
      ensures OneHeld(old(w).store) ==> OneHeld(w.store)
    {
      hide Follows, Keeps;
      for i := 0 to |commands|
        invariant Sound(w) && Remains(old(w), w)
      {
        w := w.(recent := {}, received := {}, reported := {});
        ghost var u := w;
        var code;
        match commands[i] {
          case LoginCommand =>
            ghost var outcomes, between, from;
            code, outcomes, between, from := Login();
            RemainsAfterLogin(old(w), u, w);
          case RefreshCommand =>
            code := Refresh();
            RemainsAfterRefresh(old(w), u, w);
          case LogoutCommand =>
            code := Logout(false);
            RemainsAfterLogout(old(w), u, w);
        }
      }
    }
  }

  datatype Command = LoginCommand | RefreshCommand | LogoutCommand

  /** The selected location now holds a successor the server issued; nothing else moved. */
  ghost predicate RefreshedTo(v: World, w: World) {
    && Selected(v.store).Some?
    && exists t :: t in w.received && w.store == v.store[Selected(v.store).value.source := t]
  }

  /** A location that held the saved credential, rewritten with the successor or with itself. */
  lemma SameToken(v: World, w: World, saved: Credential, successor: Token)
    requires Selected(v.store) == Some(saved) && successor in w.received
    requires w.store == v.store || w.store == v.store[saved.source := successor]
    ensures w.store == v.store || RefreshedTo(v, w)
    ensures saved.source in w.store && (w.store[saved.source] == saved.token <==> w.store == v.store)
  {
    assert v.store[saved.source := saved.token] == v.store;
  }

  lemma SuccessorIsSelected(store: map<Location, Token>, saved: Credential, successor: Token)
    requires Selected(store) == Some(saved)
    ensures Selected(store[saved.source := successor]) == Some(Credential(successor, saved.source))
    ensures store[saved.source := saved.token] == store && store[saved.source := successor][saved.source := saved.token] == store
  {
    assert store[saved.source := saved.token] == store;
    assert store[saved.source := successor][saved.source := saved.token] == store;
  }

  /** The part of a run that outlives a command. */
  ghost predicate Remains(v: World, w: World) {
    && (OneHeld(v.store) ==> OneHeld(w.store))
    && (forall at :: at in v.store && (at != TokenFile || OneHeld(v.store)) ==>
          (at in w.store && w.store[at] == v.store[at]) || v.store[at] in w.confirmed || v.store[at] in w.replaced)
  }

  lemma RemainsAfterLogin(u: World, v: World, w: World)
    requires Remains(u, v) && Follows(v, w) && Keeps(v, w, if TwoHeld(v.store) then {TokenFile} else {})
    requires OneHeld(v.store) ==> OneHeld(w.store)
    ensures Remains(u, w)
  {
  }

  lemma RemainsAfterRefresh(u: World, v: World, w: World)
    requires Remains(u, v) && Follows(v, w) && (w.store == v.store || RefreshedTo(v, w))
    requires w.replaced == v.replaced + if w.store == v.store then {} else {Selected(v.store).value.token}
    ensures Remains(u, w)
  {
  }

  lemma RemainsAfterLogout(u: World, v: World, w: World)
    requires Remains(u, v) && Follows(v, w) && Keeps(v, w, {}) && w.store.Keys <= v.store.Keys
    ensures Remains(u, w)
  {
  }

  lemma KeepsStore(v: World, w: World)
    requires w.store == v.store
    ensures Keeps(v, w, {})
  {
  }

  lemma KeepsSame(w: World)
    ensures forall exempt :: Keeps(w, w, exempt)
  {
  }

  lemma SettledKeeps(v: World, w: World, saved: Credential)
    requires saved.source in v.store && v.store[saved.source] == saved.token
    requires w.store == v.store || (w.store == v.store - {saved.source} && saved.token in w.confirmed)
    ensures forall exempt :: Keeps(v, w, exempt)
  {
  }

  /** Once the selected credential is gone, only a token file behind a keyring is left. */
  lemma SelectedGone(store: map<Location, Token>, left: map<Location, Token>)
    requires Selected(store).None? ==> left == store
    requires Selected(store).Some? ==> Selected(store).value.source != Environment && left == store - {Selected(store).value.source}
    ensures left.Keys <= if TwoHeld(store) then {TokenFile} else {}
    ensures TwoHeld(store) ==> left == map[TokenFile := store[TokenFile]]
  {
    forall at | at in left ensures TwoHeld(store) && at == TokenFile {
      match at { case Environment => case Keyring => case TokenFile => }
    }
  }

  /** The saved credential has ended, and can be removed. */
  predicate Dropped(v: World, saved: Credential) { saved.token !in v.live && saved.source != Environment }

  predicate DroppedTo(v: World, saved: Credential, x: World) {
    && x.store == v.store - {saved.source} && x.live == v.live && x.dead <= v.dead + {saved.token}
    && x.confirmed == v.confirmed + {saved.token} && x.reported == v.reported
  }

  lemma SelectedIsStored(store: map<Location, Token>)
    ensures Selected(store).Some? ==> Selected(store).value.source in store && store[Selected(store).value.source] == Selected(store).value.token
    ensures TwoHeld(store) ==> Selected(store) == Some(Credential(store[Keyring], Keyring))
  {
  }

  lemma HoldsLess(store: map<Location, Token>, after: map<Location, Token>)
    requires after.Keys <= store.Keys
    ensures OneHeld(store) ==> OneHeld(after)
  {
  }

  /** At most one removable place stays in use when one token is added to what settling left. */
  lemma LoginHolds(store: map<Location, Token>, left: map<Location, Token>, after: map<Location, Token>)
    requires left.Keys <= if TwoHeld(store) then {TokenFile} else {}
    requires after.Keys <= left.Keys + {Keyring} || after.Keys <= left.Keys + {TokenFile}
    ensures OneHeld(store) ==> OneHeld(after)
  {
  }

  lemma FollowsMeans(v: World, w: World)
    requires Follows(v, w)
    ensures v.confirmed <= w.confirmed
  {
  }

  /** What a login loses, from what settling the saved credential and one persisted token lose. */
  lemma LoginKeeps(v: World, x: World, y: World, w: World)
    requires Keeps(v, x, {}) && x.confirmed <= w.confirmed && y.store == x.store
    requires Keeps(y, w, {Keyring, TokenFile})
    requires x.store.Keys <= if TwoHeld(v.store) then {TokenFile} else {}
    ensures Keeps(v, w, if TwoHeld(v.store) then {TokenFile} else {})
  {
  }

  /** A LOGIN THAT LOSES A LIVE CREDENTIAL. The keyring's token has ended, the token file's is live. The
      keyring's is purged, the new token goes to the token file because the keyring cannot be written,
      and the live one is gone: neither revoked, nor confirmed, nor reported. */
  method OverwritingLogin(ended: Token, kept: Token) returns (client: Client)
    requires kept != ended && kept != "new" && ended != "new"
    ensures fresh(client) && Sound(client.w)
    ensures kept in client.w.live && kept !in client.w.confirmed + client.w.reported && !Stored(client.w, kept)
    ensures Selected(client.w.store) == Some(Credential("new", TokenFile))
  {
    client := new Client(n => SAME, map[Keyring := ended, TokenFile := kept], {kept}, {});
    var code, outcomes, between, from := client.Login();
    client.SteadyOpens(from, between);
    client.SteadyLogged(from, between, client.w);
  }

  /** The material is exactly what the store holds. */
  ghost predicate Lists(store: map<Location, Token>, material: seq<Credential>) {
    && (forall i :: 0 <= i < |material| ==> material[i].source in store && store[material[i].source] == material[i].token)
    && (forall at :: at in store ==> Credential(store[at], at) in material)
  }

  function Held(store: map<Location, Token>, at: Location): seq<Credential> {
    if at in store then [Credential(store[at], at)] else []
  }

  /** What removing all listed material leaves, once every token of it is confirmed. */
  lemma PurgedListed(v: World, u: World, w: World, material: seq<Credential>)
    requires Lists(v.store, material) && u.store == v.store && Purged(u, w, material, |material|)
    ensures w.store.Keys <= v.store.Keys && w.replaced == u.replaced && w.received == u.received && w.confirmed == u.confirmed && w.refused == u.refused
    ensures (forall i :: 0 <= i < |material| ==> material[i].token in w.confirmed) ==>
      Keeps(v, w, {}) && forall at :: at in v.store ==> v.store[at] in w.confirmed
  {
    forall at | at in v.store ensures exists i :: 0 <= i < |material| && material[i] == Credential(v.store[at], at) {
      assert Credential(v.store[at], at) in material;
    }
  }

  lemma NothingLeft(store: map<Location, Token>, after: map<Location, Token>, material: seq<Credential>)
    requires Lists(store, material) && after.Keys <= store.Keys
    ensures (forall i :: 0 <= i < |material| ==> material[i].source !in after) ==> after == map[]
  {
    forall at | at in store ensures exists i :: 0 <= i < |material| && material[i].source == at {
      assert Credential(store[at], at) in material;
    }
  }

  lemma MaterialIsAll(store: map<Location, Token>)
    ensures Lists(store, Held(store, Environment) + Held(store, Keyring) + Held(store, TokenFile))
  {
    var material := Held(store, Environment) + Held(store, Keyring) + Held(store, TokenFile);
    forall at | at in store ensures Credential(store[at], at) in material {
      var c := Credential(store[at], at);
      assert Held(store, at)[0] == c && c in Held(store, at);
      match at { case Environment => case Keyring => case TokenFile => }
    }
    forall c | c in material ensures c.source in store && store[c.source] == c.token {
      assert c in Held(store, Environment) || c in Held(store, Keyring) || c in Held(store, TokenFile);
    }
  }

  /** Each credential value once, in the order first seen. */
  method DistinctTokens(material: seq<Credential>) returns (tokens: seq<Token>)
    ensures forall i, j :: 0 <= i < j < |tokens| ==> tokens[i] != tokens[j]
    ensures forall t :: t in tokens <==> exists i :: 0 <= i < |material| && material[i].token == t
  {
    tokens := [];
    var seen: set<Token> := {};
    for i := 0 to |material|
      invariant forall j, k :: 0 <= j < k < |tokens| ==> tokens[j] != tokens[k]
      invariant forall t :: t in tokens <==> t in seen
      invariant forall t :: t in tokens <==> exists j :: 0 <= j < i && material[j].token == t
    {
      var t := material[i].token;
      if t == "" || t in seen {
        continue;
      }
      seen := seen + {t};
      tokens := tokens + [t];
    }
  }

  lemma UntouchedOn(u: World, v: World, w: World)
    requires Untouched(u, v) && Untouched(v, w)
    ensures Untouched(u, w) && v.confirmed <= w.confirmed
  {
  }

  lemma UntouchedMeans(v: World, w: World)
    requires Untouched(v, w)
    ensures w.store == v.store && w.recent == v.recent && w.received == v.received && w.reported == v.reported
    ensures w.purged == v.purged && w.replaced == v.replaced && w.authorizations == v.authorizations && w.polls == v.polls
    ensures Follows(v, w)
  {
  }

  lemma StartsPaced(interval: nat)
    ensures Paced(interval, [], []) && SlowDowns([]) == 0
  {
  }

  lemma StoredIsSettled(w: World, at: Location, t: Token)
    requires w.received == {t} && at in w.store && w.store[at] == t
    ensures Settled(w)
  {
    assert Stored(w, t);
  }

  lemma NothingReceived(w: World)
    ensures w.received == {} ==> Settled(w)
  {
  }

  lemma AuthorizedFollows(v: World, w: World, m: Moment)
    requires w == Authorized(v, m)
    ensures Follows(v, w) && w.store == v.store
  {
  }

  lemma AddsMeans(v: World, w: World)
    requires Adds(v, w)
    ensures Keeps(v, w, {Keyring, TokenFile}) && w.replaced == v.replaced
    ensures w.store.Keys <= v.store.Keys + {Keyring} || w.store.Keys <= v.store.Keys + {TokenFile}
  {
  }

  lemma AddsOn(u: World, v: World, w: World)
    requires u.store == v.store && u.replaced == v.replaced && Adds(v, w)
    ensures Adds(u, w)
  {
  }

  lemma AddsNothing(v: World, w: World)
    requires w.store == v.store && w.replaced == v.replaced
    ensures Adds(v, w)
  {
  }

  lemma SameFollows(w: World)
    ensures Follows(w, w)
  {
  }

  lemma UntouchedFollows(u: World, v: World, w: World)
    requires Follows(u, v) && Untouched(v, w)
    ensures Follows(u, w) && w.received == v.received && w.polls == v.polls && w.authorizations == v.authorizations
  {
  }
}
