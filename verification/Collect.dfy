/** The counterparty's `op_collect`: syncs until the events it was asked about
    have arrived, retrying what it could not decrypt.
  */
module Collect {
  import opened Options

  /** An event id. */
  type Id = nat

  /** A timeline event: one the client decrypted on arrival, or one still
      encrypted. Some events have no id. */
  datatype Event = Plain(id: Option<Id>, body: string) | Megolm(id: Option<Id>)

  /** What an attempt at an event still encrypted comes to. */
  datatype Attempt = Succeeds(body: string) | Refuses(reason: string)

  /** One turn of the loop: what the sync brought, and what attempts come to
      after it. The turns are those the deadline leaves time for. */
  datatype Round = Round(events: seq<Event>, attempts: Id -> Attempt)

  datatype Verdict = Decrypted(body: string, retried: bool) | NotDecrypted(reason: string)

  const NEVER_ATTEMPTED := "never attempted"

  // ---- what should become of one event id ----

  /** `Both`: decrypted when it came a second time, and its first copy is still
      being retried. */
  datatype Fate = Unseen | Waiting(reason: Option<string>) | Settled(verdict: Verdict) | Both(verdict: Verdict, reason: Option<string>)

  function Deliver(fate: Fate, e: Event, id: Id): Fate
  {
    if e.id != Some(id) then fate
    else
      match fate
      case Settled(_) => fate
      case Both(_, _) => fate
      case Unseen => if e.Megolm? then Waiting(None) else Settled(Decrypted(e.body, false))
      case Waiting(reason) => if e.Megolm? then fate else Both(Decrypted(e.body, false), reason)
  }

  function DeliverAll(fate: Fate, events: seq<Event>, id: Id): Fate
  {
    if events == [] then fate else Deliver(DeliverAll(fate, events[..|events| - 1], id), events[|events| - 1], id)
  }

  function Retry(fate: Fate, attempt: Attempt): Fate
  {
    match fate
    case Waiting(_) => if attempt.Succeeds? then Settled(Decrypted(attempt.body, true)) else Waiting(Some(attempt.reason))
    case Both(v, _) => if attempt.Succeeds? then Settled(Decrypted(attempt.body, true)) else Both(v, Some(attempt.reason))
    case _ => fate
  }

  /** What has become of an id after some rounds. */
  function FateOf(rounds: seq<Round>, id: Id): Fate
  {
    if rounds == [] then Unseen
    else
      var last := rounds[|rounds| - 1];
      Retry(DeliverAll(FateOf(rounds[..|rounds| - 1], id), last.events, id), last.attempts(id))
  }

  /** What is reported of it when the loop ends. */
  function Report(fate: Fate): Option<Verdict>
  {
    match fate
    case Unseen => None
    case Settled(v) => Some(v)
    case Waiting(reason) => Some(NotDecrypted(if reason.Some? then reason.value else NEVER_ATTEMPTED))
    case Both(_, reason) => Some(NotDecrypted(if reason.Some? then reason.value else NEVER_ATTEMPTED))
  }

  // ---- the loop ----

  /** What the loop's maps say of an id. */
  function Seen(done: map<Id, Verdict>, pending: set<Id>, reasons: map<Id, string>, id: Id): Fate
  {
    var reason := if id in reasons then Some(reasons[id]) else None;
    if id in pending then if id in done then Both(done[id], reason) else Waiting(reason)
    else if id in done then Settled(done[id])
    else Unseen
  }

  /** The loop's maps are about the ids that were asked for. */
  ghost predicate About(wanted: set<Id>, done: map<Id, Verdict>, pending: set<Id>, reasons: map<Id, string>)
  {
    && done.Keys <= wanted && pending <= wanted
    && forall id :: id in reasons ==> id in pending || id in done
  }

  /** One event, of one id. */
  lemma DeliverOne(done: map<Id, Verdict>, pending: set<Id>, reasons: map<Id, string>, e: Event, id: Id)
    requires e.id.Some? && e.id.value !in done && (e.id.value in reasons ==> e.id.value in pending)
    ensures e.Megolm? ==> Seen(done, pending + {e.id.value}, reasons, id) == Deliver(Seen(done, pending, reasons, id), e, id)
    ensures e.Plain? ==>
      Seen(done[e.id.value := Decrypted(e.body, false)], pending, reasons, id) == Deliver(Seen(done, pending, reasons, id), e, id)
  {}

  lemma DeliverMore(fate: Fate, events: seq<Event>, n: nat, id: Id)
    requires n < |events|
    ensures DeliverAll(fate, events[..n + 1], id) == Deliver(DeliverAll(fate, events[..n], id), events[n], id)
  {
    assert events[..n + 1][..n] == events[..n];
  }

  /** The events of one sync. */
  method Receive(wanted: set<Id>, events: seq<Event>, done0: map<Id, Verdict>, pending0: set<Id>, reasons: map<Id, string>)
    returns (done: map<Id, Verdict>, pending: set<Id>)
    requires About(wanted, done0, pending0, reasons)
    ensures About(wanted, done, pending, reasons)
    ensures forall id :: id in wanted ==> Seen(done, pending, reasons, id) == DeliverAll(Seen(done0, pending0, reasons, id), events, id)
  {
    done, pending := done0, pending0;
    for n := 0 to |events|
      invariant About(wanted, done, pending, reasons)
      invariant forall id :: id in wanted ==>
                  Seen(done, pending, reasons, id) == DeliverAll(Seen(done0, pending0, reasons, id), events[..n], id)
    {
      var e := events[n];
      forall id | id in wanted
        ensures DeliverAll(Seen(done0, pending0, reasons, id), events[..n + 1], id) == Deliver(Seen(done, pending, reasons, id), e, id)
      {
        DeliverMore(Seen(done0, pending0, reasons, id), events, n, id);
      }
      if e.id.Some? && e.id.value in wanted && e.id.value !in done {
        forall id { DeliverOne(done, pending, reasons, e, id); }
        match e {
          case Megolm(id) => pending := pending + {id.value};
          case Plain(id, body) => done := done[id.value := Decrypted(body, false)];
        }
      }
    }
    assert events[..|events|] == events;
  }

  /** One attempt at every event still encrypted. */
  method TryAll(wanted: set<Id>, attempts: Id -> Attempt, done0: map<Id, Verdict>, pending0: set<Id>, reasons0: map<Id, string>)
    returns (done: map<Id, Verdict>, pending: set<Id>, reasons: map<Id, string>)
    requires About(wanted, done0, pending0, reasons0)
    ensures About(wanted, done, pending, reasons)
    ensures forall id :: id in wanted ==> Seen(done, pending, reasons, id) == Retry(Seen(done0, pending0, reasons0, id), attempts(id))
  {
    done, pending, reasons := done0, pending0, reasons0;
    var left := pending0;
    while left != {}
      invariant left <= pending <= pending0 && About(wanted, done, pending, reasons)
      invariant forall id :: id in left ==> Seen(done, pending, reasons, id) == Seen(done0, pending0, reasons0, id)
      invariant forall id :: id in wanted && id !in left ==>
                  Seen(done, pending, reasons, id) == Retry(Seen(done0, pending0, reasons0, id), attempts(id))
      decreases left
    {
      var id :| id in left;
      match attempts(id) {
        case Succeeds(body) => done, pending := done[id := Decrypted(body, true)], pending - {id};
        case Refuses(reason) => reasons := reasons[id := reason];
      }
      left := left - {id};
    }
  }

  /** An id that must decrypt has, or one that was asked for has come. */
  predicate Decoded(fate: Fate) { fate.Settled? || fate.Both? }

  /** Whether there is anything left to wait for. */
  ghost predicate Outstanding(wanted: set<Id>, must: set<Id>, rounds: seq<Round>)
  {
    || (exists id :: id in wanted && FateOf(rounds, id).Unseen?)
    || (exists id :: id in must && !(id in wanted && Decoded(FateOf(rounds, id))))
  }

  lemma GuardMeans(wanted: set<Id>, must: set<Id>, rounds: seq<Round>, done: map<Id, Verdict>, pending: set<Id>, reasons: map<Id, string>)
    requires About(wanted, done, pending, reasons)
    requires forall id :: id in wanted ==> Seen(done, pending, reasons, id) == FateOf(rounds, id)
    ensures wanted - done.Keys - pending != {} || must - done.Keys != {} <==> Outstanding(wanted, must, rounds)
  {
    if wanted - done.Keys - pending != {} {
      var id :| id in wanted - done.Keys - pending;
      assert FateOf(rounds, id).Unseen?;
    }
    if must - done.Keys != {} {
      var id :| id in must - done.Keys;
      assert !(id in wanted && Decoded(FateOf(rounds, id)));
    }
    if id :| id in wanted && FateOf(rounds, id).Unseen? {
      assert id in wanted - done.Keys - pending;
    } else if id :| id in must && !(id in wanted && Decoded(FateOf(rounds, id))) {
      assert id in must - done.Keys;
    }
  }

  /** `outstanding()` */
  method IsOutstanding(wanted: set<Id>, must: set<Id>, done: map<Id, Verdict>, pending: set<Id>, reasons: map<Id, string>, ghost rounds: seq<Round>)
    returns (more: bool)
    requires About(wanted, done, pending, reasons)
    requires forall id :: id in wanted ==> Seen(done, pending, reasons, id) == FateOf(rounds, id)
    ensures more <==> Outstanding(wanted, must, rounds)
  {
    GuardMeans(wanted, must, rounds, done, pending, reasons);
    more := wanted - done.Keys - pending != {} || must - done.Keys != {};
  }

  lemma RoundMore(rounds: seq<Round>, n: nat, id: Id)
    requires n < |rounds|
    ensures FateOf(rounds[..n + 1], id) == Retry(DeliverAll(FateOf(rounds[..n], id), rounds[n].events, id), rounds[n].attempts(id))
  {
    assert rounds[..n + 1][..n] == rounds[..n];
  }

  /** One turn of the loop. */
  method Turn(wanted: set<Id>, rounds: seq<Round>, n: nat, done0: map<Id, Verdict>, pending0: set<Id>, reasons0: map<Id, string>)
    returns (done: map<Id, Verdict>, pending: set<Id>, reasons: map<Id, string>)
    requires n < |rounds| && About(wanted, done0, pending0, reasons0)
    requires forall id :: id in wanted ==> Seen(done0, pending0, reasons0, id) == FateOf(rounds[..n], id)
    ensures About(wanted, done, pending, reasons)
    ensures forall id :: id in wanted ==> Seen(done, pending, reasons, id) == FateOf(rounds[..n + 1], id)
  {
    done, pending := Receive(wanted, rounds[n].events, done0, pending0, reasons0);
    done, pending, reasons := TryAll(wanted, rounds[n].attempts, done, pending, reasons0);
    forall id { RoundMore(rounds, n, id); }
  }

  /** What is still encrypted when the loop ends is reported so, over whatever
      was reported of it before. */
  method Close(wanted: set<Id>, done0: map<Id, Verdict>, pending: set<Id>, reasons: map<Id, string>) returns (done: map<Id, Verdict>)
    requires About(wanted, done0, pending, reasons)
    ensures done.Keys == done0.Keys + pending
    ensures forall id :: id in done ==> Some(done[id]) == Report(Seen(done0, pending, reasons, id))
  {
    done := done0;
    var left := pending;
    while left != {}
      invariant left <= pending && done.Keys == done0.Keys + (pending - left)
      invariant forall id :: id in done && id !in left ==> Some(done[id]) == Report(Seen(done0, pending, reasons, id))
      invariant forall id :: id in left && id in done ==> id in done0 && done[id] == done0[id]
      decreases left
    {
      var id :| id in left;
      done := done[id := NotDecrypted(if id in reasons then reasons[id] else NEVER_ATTEMPTED)];
      left := left - {id};
    }
  }

  /** Its loop. `used` is how many turns were taken. */
  method Loop(wanted: set<Id>, must: set<Id>, rounds: seq<Round>)
    returns (done: map<Id, Verdict>, pending: set<Id>, reasons: map<Id, string>, used: nat)
    ensures used <= |rounds| && About(wanted, done, pending, reasons)
    ensures forall id :: id in wanted ==> Seen(done, pending, reasons, id) == FateOf(rounds[..used], id)
    ensures used > 0 ==> Outstanding(wanted, must, rounds[..used - 1])
    ensures used < |rounds| ==> !Outstanding(wanted, must, rounds[..used])
  {
    done, pending, reasons, used := map[], {}, map[], 0;
    var more := IsOutstanding(wanted, must, done, pending, reasons, rounds[..0]);
    while more && used < |rounds|
      invariant used <= |rounds| && About(wanted, done, pending, reasons)
      invariant forall id :: id in wanted ==> Seen(done, pending, reasons, id) == FateOf(rounds[..used], id)
      invariant used > 0 ==> Outstanding(wanted, must, rounds[..used - 1])
      invariant more <==> Outstanding(wanted, must, rounds[..used])
      decreases |rounds| - used
    {
      done, pending, reasons := Turn(wanted, rounds, used, done, pending, reasons);
      used := used + 1;
      more := IsOutstanding(wanted, must, done, pending, reasons, rounds[..used]);
    }
  }

  /** `op_collect`. Fewer turns used than there was time for means that nothing
      was left to wait for. */
  method Collect(wanted: set<Id>, must: set<Id>, rounds: seq<Round>)
    returns (events: map<Id, Verdict>, missing: set<Id>, used: nat)
    ensures used <= |rounds|
    // what is reported and what is missing are, between them, what was asked for
    ensures events.Keys + missing == wanted && events.Keys !! missing
    // what is reported is what became of each
    ensures forall id :: id in wanted ==> (id in events <==> !FateOf(rounds[..used], id).Unseen?)
    ensures forall id :: id in events ==> Some(events[id]) == Report(FateOf(rounds[..used], id))
    // which accounts for what was delivered of it and attempted
    ensures forall id :: id in wanted ==>
      if id in events then Accounts(rounds[..used], id, events[id]) else Copies(rounds[..used], id) == []
    // it stops as soon as nothing is outstanding, and not before
    ensures used > 0 ==> Outstanding(wanted, must, rounds[..used - 1])
    ensures used < |rounds| ==> !Outstanding(wanted, must, rounds[..used])
  {
    var done, pending, reasons, turns := Loop(wanted, must, rounds);
    used := turns;
    events := Close(wanted, done, pending, reasons);
    missing := wanted - events.Keys;
    forall id { ReportAccounts(rounds[..used], id); }
  }

  // ---- what the reports mean ----

  /** The copies of an event that the syncs delivered, in order. */
  function CopiesIn(events: seq<Event>, id: Id): seq<Event>
  {
    if events == [] then []
    else CopiesIn(events[..|events| - 1], id) + if events[|events| - 1].id == Some(id) then [events[|events| - 1]] else []
  }

  function Copies(rounds: seq<Round>, id: Id): seq<Event>
  {
    if rounds == [] then [] else Copies(rounds[..|rounds| - 1], id) + CopiesIn(rounds[|rounds| - 1].events, id)
  }

  /** Some copy was decrypted on arrival. */
  ghost predicate HasPlain(copies: seq<Event>)
  {
    exists i :: 0 <= i < |copies| && copies[i].Plain?
  }

  /** In every turn by whose end an event was delivered, the attempt at it is
      refused. */
  predicate AlwaysRefused(rounds: seq<Round>, id: Id)
  {
    rounds == []
    || (&& AlwaysRefused(rounds[..|rounds| - 1], id)
        && (Copies(rounds, id) != [] ==> rounds[|rounds| - 1].attempts(id).Refuses?))
  }

  /** How what was delivered and attempted settles the fate of an id. */
  ghost predicate Tells(copies: seq<Event>, refused: bool, fate: Fate)
  {
    && (fate.Unseen? <==> copies == [])
    && (fate.Waiting? <==> copies != [] && !HasPlain(copies) && refused)
    && (fate.Both? <==> copies != [] && copies[0].Megolm? && HasPlain(copies) && refused)
  }

  lemma DeliveryTells(copies: seq<Event>, refused: bool, fate: Fate, e: Event, id: Id)
    requires Tells(copies, refused, fate) && e.id == Some(id) && (copies == [] ==> refused)
    ensures Tells(copies + [e], refused, Deliver(fate, e, id))
  {
    var after := copies + [e];
    assert after[|copies|] == e;
    assert HasPlain(after) <==> HasPlain(copies) || e.Plain? by {
      if i :| 0 <= i < |copies| && copies[i].Plain? {
        assert after[i].Plain?;
      }
    }
  }

  lemma {:induction false} DeliveriesTell(copies: seq<Event>, refused: bool, fate: Fate, events: seq<Event>, id: Id)
    requires Tells(copies, refused, fate) && (copies == [] ==> refused)
    ensures Tells(copies + CopiesIn(events, id), refused, DeliverAll(fate, events, id))
  {
    if events == [] {
      assert copies + [] == copies;
    } else {
      var front, e := events[..|events| - 1], events[|events| - 1];
      DeliveriesTell(copies, refused, fate, front, id);
      var so := copies + CopiesIn(front, id);
      if e.id == Some(id) {
        DeliveryTells(so, refused, DeliverAll(fate, front, id), e, id);
        assert so + [e] == copies + CopiesIn(events, id);
      } else {
        assert so == copies + CopiesIn(events, id);
      }
    }
  }

  lemma {:induction false} RefusedUnseen(rounds: seq<Round>, id: Id)
    requires Copies(rounds, id) == []
    ensures AlwaysRefused(rounds, id)
  {
    if rounds != [] {
      RefusedUnseen(rounds[..|rounds| - 1], id);
    }
  }

  /** What becomes of an id, by what was delivered and attempted of it. */
  lemma {:induction false} FateTold(rounds: seq<Round>, id: Id)
    ensures Tells(Copies(rounds, id), AlwaysRefused(rounds, id), FateOf(rounds, id))
  {
    if rounds != [] {
      var front, last := rounds[..|rounds| - 1], rounds[|rounds| - 1];
      FateTold(front, id);
      if Copies(front, id) == [] {
        RefusedUnseen(front, id);
      }
      DeliveriesTell(Copies(front, id), AlwaysRefused(front, id), FateOf(front, id), last.events, id);
    }
  }

  /** An event is lost though it was decrypted exactly if its first copy came
      encrypted, some later one did not, and every attempt since was refused. */
  ghost predicate DecryptedAndLost(rounds: seq<Round>, id: Id)
  {
    var copies := Copies(rounds, id);
    copies != [] && copies[0].Megolm? && HasPlain(copies) && AlwaysRefused(rounds, id)
  }

  /** An id is missing exactly if it was never delivered, and both decrypted and
      still retried exactly if it was decrypted and lost, which takes two copies. */
  lemma DeliveredTwice(rounds: seq<Round>, id: Id)
    ensures FateOf(rounds, id).Unseen? <==> Copies(rounds, id) == []
    ensures FateOf(rounds, id).Both? <==> DecryptedAndLost(rounds, id)
    ensures DecryptedAndLost(rounds, id) ==> |Copies(rounds, id)| >= 2
  {
    FateTold(rounds, id);
  }

  /** The loop goes on for an id that no sync delivered, and for one that must
      decrypt and has neither come decrypted nor been decrypted when retried. */
  lemma WaitsFor(wanted: set<Id>, must: set<Id>, rounds: seq<Round>)
    ensures Outstanding(wanted, must, rounds) <==>
      || (exists id :: id in wanted && Copies(rounds, id) == [])
      || (exists id :: id in must && (id !in wanted || (!HasPlain(Copies(rounds, id)) && AlwaysRefused(rounds, id))))
  {
    forall id
      ensures FateOf(rounds, id).Unseen? <==> Copies(rounds, id) == []
      ensures Decoded(FateOf(rounds, id)) <==> HasPlain(Copies(rounds, id)) || !AlwaysRefused(rounds, id)
    {
      FateTold(rounds, id);
      if Copies(rounds, id) == [] {
        RefusedUnseen(rounds, id);
      }
    }
  }

  // ---- what is reported of an event ----

  /** The attempt of turn `k` is the first to succeed since the event was delivered. */
  ghost predicate FirstSuccess(rounds: seq<Round>, id: Id, k: nat)
    requires k < |rounds|
  {
    && Copies(rounds[..k + 1], id) != [] && rounds[k].attempts(id).Succeeds?
    && AlwaysRefused(rounds[..k], id)
  }

  /** What a verdict says of what was delivered and attempted. Decrypted on
      arrival: the first copy came so, with that body. Decrypted when retried: the
      first copy came encrypted, and the first attempt to succeed gave that body.
      Not decrypted: no attempt succeeded, and the last was refused for that reason. */
  ghost predicate Accounts(rounds: seq<Round>, id: Id, verdict: Verdict)
  {
    var copies := Copies(rounds, id);
    && copies != []
    && if verdict.NotDecrypted? then
         && copies[0].Megolm? && AlwaysRefused(rounds, id)
         && rounds[|rounds| - 1].attempts(id) == Refuses(verdict.reason)
       else if verdict.retried then
         copies[0].Megolm? && exists k :: 0 <= k < |rounds| && FirstSuccess(rounds, id, k) && rounds[k].attempts(id).body == verdict.body
       else
         copies[0] == Plain(Some(id), verdict.body)
  }

  /** The same of a fate: what it will be reported as. */
  ghost predicate Known(rounds: seq<Round>, id: Id, fate: Fate)
  {
    match fate
    case Unseen => Copies(rounds, id) == []
    case Settled(v) => v.Decrypted? && Accounts(rounds, id, v)
    case Waiting(reason) => reason.Some? && Accounts(rounds, id, NotDecrypted(reason.value))
    case Both(_, reason) => reason.Some? && Accounts(rounds, id, NotDecrypted(reason.value))
  }

  /** What the events of one sync make of a fate. */
  lemma {:induction false} Arrival(fate: Fate, events: seq<Event>, id: Id)
    ensures var after, copies := DeliverAll(fate, events, id), CopiesIn(events, id);
      match fate
      case Settled(_) => after == fate
      case Waiting(reason) => (after.Waiting? || after.Both?) && after.reason == reason
      case Both(_, reason) => after.Both? && after.reason == reason
      case Unseen =>
        if copies == [] then after.Unseen?
        else if copies[0].Plain? then copies[0].id == Some(id) && after == Settled(Decrypted(copies[0].body, false))
        else (after.Waiting? || after.Both?) && after.reason.None?
  {
    if events != [] {
      Arrival(fate, events[..|events| - 1], id);
    }
  }

  lemma FirstSuccessStands(rounds: seq<Round>, n: nat, id: Id, k: nat)
    requires k < n <= |rounds| && FirstSuccess(rounds[..n], id, k)
    ensures FirstSuccess(rounds, id, k)
  {
    assert rounds[..n][..k + 1] == rounds[..k + 1] && rounds[..n][..k] == rounds[..k];
  }

  /** A settled account stands as more turns are taken. */
  lemma AccountsStand(rounds: seq<Round>, id: Id, v: Verdict)
    requires rounds != [] && v.Decrypted? && Accounts(rounds[..|rounds| - 1], id, v)
    ensures Accounts(rounds, id, v)
  {
    var n := |rounds| - 1;
    assert Copies(rounds, id)[0] == Copies(rounds[..n], id)[0];
    if v.retried {
      var k :| 0 <= k < n && FirstSuccess(rounds[..n], id, k) && rounds[..n][k].attempts(id).body == v.body;
      FirstSuccessStands(rounds, n, id, k);
    }
  }

  /** An event still encrypted when it is attempted. */
  lemma AttemptAccounts(rounds: seq<Round>, id: Id)
    requires rounds != [] && Copies(rounds, id) != [] && Copies(rounds, id)[0].Megolm?
    requires AlwaysRefused(rounds[..|rounds| - 1], id)
    ensures var a := rounds[|rounds| - 1].attempts(id);
      Accounts(rounds, id, if a.Succeeds? then Decrypted(a.body, true) else NotDecrypted(a.reason))
  {
    var n := |rounds| - 1;
    assert rounds[..n + 1] == rounds;
    assert rounds[n].attempts(id).Succeeds? ==> FirstSuccess(rounds, id, n);
  }

  lemma {:induction false} FateIsKnown(rounds: seq<Round>, id: Id)
    ensures Known(rounds, id, FateOf(rounds, id))
  {
    if rounds != [] {
      FateIsKnown(rounds[..|rounds| - 1], id);
      NextIsKnown(rounds, id);
    }
  }

  lemma NextIsKnown(rounds: seq<Round>, id: Id)
    requires rounds != [] && Known(rounds[..|rounds| - 1], id, FateOf(rounds[..|rounds| - 1], id))
    ensures Known(rounds, id, FateOf(rounds, id))
  {
    var n := |rounds| - 1;
    var front, fate := rounds[..n], FateOf(rounds[..n], id);
    Arrival(fate, rounds[n].events, id);
    match fate {
      case Settled(v) => AccountsStand(rounds, id, v);
      case Unseen =>
        RefusedUnseen(front, id);
        assert Copies(rounds, id) == CopiesIn(rounds[n].events, id);
        if Copies(rounds, id) != [] && Copies(rounds, id)[0].Megolm? {
          AttemptAccounts(rounds, id);
        }
      case _ =>
        assert Copies(rounds, id)[0] == Copies(front, id)[0];
        AttemptAccounts(rounds, id);
    }
  }

  /** What is reported of an event accounts for what became of it. */
  lemma ReportAccounts(rounds: seq<Round>, id: Id)
    ensures var report := Report(FateOf(rounds, id));
      if report.Some? then Accounts(rounds, id, report.value) else Copies(rounds, id) == []
  {
    FateIsKnown(rounds, id);
  }

  lemma {:induction false} SettledStays(fate: Fate, events: seq<Event>, id: Id)
    requires fate.Settled?
    ensures DeliverAll(fate, events, id) == fate
  {
    if events != [] {
      SettledStays(fate, events[..|events| - 1], id);
    }
  }

  /** A settled verdict is never overwritten by later rounds. */
  lemma {:induction false} VerdictIsFinal(rounds: seq<Round>, n: nat, id: Id)
    requires n <= |rounds| && FateOf(rounds[..n], id).Settled?
    ensures FateOf(rounds, id) == FateOf(rounds[..n], id)
  {
    if n < |rounds| {
      var front := rounds[..|rounds| - 1];
      assert front[..n] == rounds[..n];
      VerdictIsFinal(front, n, id);
      SettledStays(FateOf(front, id), rounds[|rounds| - 1].events, id);
    } else {
      assert rounds[..n] == rounds;
    }
  }

  /** Whatever is reported encrypted was attempted, and says why it failed. */
  lemma EncryptedHasReason(rounds: seq<Round>, id: Id)
    ensures FateOf(rounds, id).Waiting? ==> FateOf(rounds, id).reason.Some?
    ensures FateOf(rounds, id).Both? ==> FateOf(rounds, id).reason.Some?
  {}

  /** The loop that ends early misses nothing, and reports a decryption of each id
      that had to have one exactly if none of them was decrypted and lost, as
      none is that was delivered once. */
  lemma EarlyEnd(wanted: set<Id>, must: set<Id>, rounds: seq<Round>)
    requires !Outstanding(wanted, must, rounds)
    ensures forall id :: id in wanted ==> Copies(rounds, id) != []
    ensures (forall id :: id in must ==> Report(FateOf(rounds, id)).Some? && Report(FateOf(rounds, id)).value.Decrypted?) <==>
            (forall id :: id in must ==> !DecryptedAndLost(rounds, id))
    ensures (forall id :: id in must ==> |Copies(rounds, id)| <= 1) ==> forall id :: id in must ==> !DecryptedAndLost(rounds, id)
  {
    forall id ensures (FateOf(rounds, id).Unseen? <==> Copies(rounds, id) == [])
                   && (FateOf(rounds, id).Both? <==> DecryptedAndLost(rounds, id))
                   && (DecryptedAndLost(rounds, id) ==> |Copies(rounds, id)| >= 2) {
      DeliveredTwice(rounds, id);
    }
    forall id | id in must ensures Decoded(FateOf(rounds, id)) {}
    forall id ensures FateOf(rounds, id).Settled? ==> FateOf(rounds, id).verdict.Decrypted? { SettledIsDecrypted(rounds, id); }
  }

  lemma {:induction false} DeliveredIsDecrypted(fate: Fate, events: seq<Event>, id: Id)
    requires fate.Settled? || fate.Both? ==> fate.verdict.Decrypted?
    ensures var after := DeliverAll(fate, events, id); after.Settled? || after.Both? ==> after.verdict.Decrypted?
  {
    if events != [] {
      DeliveredIsDecrypted(fate, events[..|events| - 1], id);
    }
  }

  lemma {:induction false} SettledIsDecrypted(rounds: seq<Round>, id: Id)
    ensures var fate := FateOf(rounds, id); fate.Settled? || fate.Both? ==> fate.verdict.Decrypted?
  {
    if rounds != [] {
      var front := rounds[..|rounds| - 1];
      SettledIsDecrypted(front, id);
      DeliveredIsDecrypted(FateOf(front, id), rounds[|rounds| - 1].events, id);
    }
  }

  /** Two turns in which an event comes encrypted and then decrypted. */
  function TwoTurns(attempts: Id -> Attempt): seq<Round>
  {
    [Round([Megolm(Some(7))], attempts), Round([Plain(Some(7), "hello")], attempts)]
  }

  /** While no attempt at the first copy succeeds, the loop waits for the second,
      and ends because nothing is left to wait for. */
  lemma DecryptedThenLost(attempts: Id -> Attempt, reason: string)
    requires attempts(7) == Refuses(reason)
    ensures var rounds := TwoTurns(attempts);
      && (forall n :: 0 <= n < 2 ==> Outstanding({7}, {7}, rounds[..n])) && !Outstanding({7}, {7}, rounds)
      && FateOf(rounds, 7) == Both(Decrypted("hello", false), Some(reason))
  {
    var rounds := TwoTurns(attempts);
    var first, second := rounds[0], rounds[1];
    assert rounds[..1] == [first] && [first][..0] == [];
    assert first.events[..0] == [] && second.events[..0] == [];
    assert FateOf([first], 7) == Waiting(Some(reason));
    assert FateOf(rounds[..0], 7).Unseen?;
    assert rounds[..2] == rounds;
    RoundMore(rounds, 1, 7);
  }

  /** So `op_collect` reports as encrypted an event the client has decrypted. */
  method LoseOne(attempts: Id -> Attempt, reason: string) returns (events: map<Id, Verdict>, missing: set<Id>, used: nat)
    requires attempts(7) == Refuses(reason)
    ensures used == 2 && missing == {} && events == map[7 := NotDecrypted(reason)]
  {
    var rounds := TwoTurns(attempts);
    DecryptedThenLost(attempts, reason);
    events, missing, used := Collect({7}, {7}, rounds);
    assert used == 2 && rounds[..2] == rounds;
    assert 7 in events;
  }
}
