/**
 * Sign-in approval from the phone: the row, and what each call reads and writes.
 *
 * `answer` reads the row and writes it in two separate statements, so it is two steps here, with
 * any number of other calls between them. The clock of an answer is read once, when it starts.
 */
module Approvals {
  import opened Common

  datatype Verdict = Approved | Denied | WrongNumber

  datatype Row = Row(
    userId: string, interaction: string, number: int, choices: seq<int>, expiresAt: int,
    answeredAt: Option<int>, result: Option<Verdict>, answeredBy: Option<string>, consumedAt: Option<int>)

  type Table = map<string, Row>

  const TTL_MS := 2 * 60 * 1000

  /** What the phone sends. */
  datatype Input = Input(number: Option<int>, deny: bool)

  /** An answer between its read and its write. */
  datatype Ticket = Ticket(id: string, userId: string, input: Input, verdict: Verdict, grantId: string, now: int)

  datatype Reply = NotYours | Gone | Expired | Answered(verdict: Verdict)

  datatype Read = Replied(reply: Reply) | Proceed(ticket: Ticket)

  datatype State = Pending | PastExpiry | Decided(verdict: Verdict)

  function Judge(number: int, input: Input): Verdict {
    if input.deny then Denied else if input.number == Some(number) then Approved else WrongNumber
  }

  function Started(
        t: Table, id: string, userId: string, interaction: string, number: int, choices: seq<int>, now: int): Table {
    t[id := Row(userId, interaction, number, choices, now + TTL_MS, None, None, None, None)]
  }

  function ReadFor(t: Table, id: string, userId: string, input: Input, grantId: string, now: int): Read {
    if id !in t || t[id].userId != userId then Replied(NotYours)
    else if t[id].answeredAt.Some? then Replied(Gone)
    else if t[id].expiresAt <= now then Replied(Expired)
    else Proceed(Ticket(id, userId, input, Judge(t[id].number, input), grantId, now))
  }

  /** The `where` of the conditional update. */
  predicate StillOpen(t: Table, k: Ticket) {
    k.id in t && t[k.id].userId == k.userId && t[k.id].answeredAt.None? && t[k.id].expiresAt > k.now
  }

  function Written(t: Table, k: Ticket): Table {
    if StillOpen(t, k)
    then t[k.id := t[k.id].(answeredAt := Some(k.now), result := Some(k.verdict), answeredBy := Some(k.grantId))]
    else t
  }

  predicate Spendable(t: Table, id: string, interaction: string) {
    id in t && t[id].interaction == interaction && t[id].result == Some(Approved) && t[id].consumedAt.None?
  }

  function Consumed(t: Table, id: string, interaction: string, now: int): Table {
    if Spendable(t, id, interaction) then t[id := t[id].(consumedAt := Some(now))] else t
  }

  function StateOf(t: Table, id: string, interaction: string, now: int): Option<State> {
    if id !in t || t[id].interaction != interaction then None
    else if t[id].result.Some? then Some(Decided(t[id].result.value))
    else if t[id].expiresAt <= now then Some(PastExpiry)
    else Some(Pending)
  }

  // ---- interleaved runs ----

  datatype Event =
    | Start(id: string, userId: string, interaction: string, number: int, choices: seq<int>, now: int)
    | AnswerRead(request: nat, id: string, userId: string, input: Input, grantId: string, now: int)
    | AnswerWrite(request: nat)
    | Consume(id: string, interaction: string, now: int)

  /** The table, the answers in flight, and every answer and consumption that won. */
  datatype World = World(rows: Table, inFlight: map<nat, Ticket>, wins: seq<Ticket>, spends: seq<string>)

  const EMPTY := World(map[], map[], [], [])

  /** Row ids are new and a request number is used by one answer at a time. */
  predicate Enabled(w: World, e: Event) {
    match e
    case Start(id, _, _, _, _, _) => id !in w.rows
    case AnswerRead(request, _, _, _, _, _) => request !in w.inFlight
    case AnswerWrite(request) => request in w.inFlight
    case Consume(_, _, _) => true
  }

  function Step(w: World, e: Event): World
    requires Enabled(w, e)
  {
    match e
    case Start(id, userId, interaction, number, choices, now) =>
      w.(rows := Started(w.rows, id, userId, interaction, number, choices, now))
    case AnswerRead(request, id, userId, input, grantId, now) =>
      var r := ReadFor(w.rows, id, userId, input, grantId, now);
      if r.Proceed? then w.(inFlight := w.inFlight[request := r.ticket]) else w
    case AnswerWrite(request) =>
      var k := w.inFlight[request];
      World(Written(w.rows, k), w.inFlight - {request},
        if StillOpen(w.rows, k) then w.wins + [k] else w.wins, w.spends)
    case Consume(id, interaction, now) =>
      w.(rows := Consumed(w.rows, id, interaction, now),
         spends := if Spendable(w.rows, id, interaction) then w.spends + [id] else w.spends)
  }

  ghost predicate Legal(w: World, events: seq<Event>)
    decreases events
  {
    events == [] || (Enabled(w, events[0]) && Legal(Step(w, events[0]), events[1..]))
  }

  ghost function Run(w: World, events: seq<Event>): World
    requires Legal(w, events)
    decreases events
  {
    if events == [] then w else Run(Step(w, events[0]), events[1..])
  }

  /** A ticket belongs to the row it read. */
  predicate Fits(rows: Table, k: Ticket) {
    && k.id in rows
    && k.userId == rows[k.id].userId
    && k.verdict == Judge(rows[k.id].number, k.input)
    && k.now < rows[k.id].expiresAt
  }

  /** The answer that won is the one the row records. */
  predicate Recorded(rows: Table, k: Ticket) {
    && Fits(rows, k)
    && rows[k.id].answeredAt == Some(k.now)
    && rows[k.id].result == Some(k.verdict)
    && rows[k.id].answeredBy == Some(k.grantId)
  }

  ghost predicate WinsAreRecorded(w: World) {
    && (forall i :: 0 <= i < |w.wins| ==> Recorded(w.rows, w.wins[i]))
    && (forall i, j :: 0 <= i < j < |w.wins| ==> w.wins[i].id != w.wins[j].id)
  }

  ghost predicate Won(wins: seq<Ticket>, id: string) {
    exists i :: 0 <= i < |wins| && wins[i].id == id
  }

  ghost predicate RowsAreWon(w: World) {
    forall id :: id in w.rows
      ==> (w.rows[id].answeredAt.Some? <==> w.rows[id].result.Some?) && (w.rows[id].result.Some? ==> Won(w.wins, id))
  }

  predicate Spent(rows: Table, id: string) {
    id in rows && rows[id].consumedAt.Some? && rows[id].result == Some(Approved)
  }

  ghost predicate SpendsAreApproved(w: World) {
    && (forall i :: 0 <= i < |w.spends| ==> Spent(w.rows, w.spends[i]))
    && (forall i, j :: 0 <= i < j < |w.spends| ==> w.spends[i] != w.spends[j])
    && (forall id :: id in w.rows && w.rows[id].consumedAt.Some? ==> id in w.spends)
  }

  ghost predicate Sane(w: World) {
    && (forall r :: r in w.inFlight ==> Fits(w.rows, w.inFlight[r]))
    && WinsAreRecorded(w) && RowsAreWon(w) && SpendsAreApproved(w)
  }

  /** Nothing that was decided is decided again, and nothing that was spent is given back. */
  predicate Later(a: Row, b: Row) {
    && (a.userId, a.interaction, a.number, a.choices, a.expiresAt)
          == (b.userId, b.interaction, b.number, b.choices, b.expiresAt)
    && (a.result.Some? ==> b.result == a.result)
    && (a.answeredAt.Some? ==> b.answeredAt == a.answeredAt && b.answeredBy == a.answeredBy)
    && (a.consumedAt.Some? ==> b.consumedAt == a.consumedAt)
  }

  ghost predicate Extends(a: Table, b: Table) {
    forall id :: id in a ==> id in b && Later(a[id], b[id])
  }

  lemma WriteRecords(w: World, request: nat)
    requires Sane(w) && request in w.inFlight && StillOpen(w.rows, w.inFlight[request])
    ensures WinsAreRecorded(Step(w, AnswerWrite(request)))
  {
    var k := w.inFlight[request];
    var rows := Written(w.rows, k);
    assert Recorded(rows, k);
    forall i | 0 <= i < |w.wins| ensures w.wins[i].id != k.id && Recorded(rows, w.wins[i]) {
      assert Recorded(w.rows, w.wins[i]);
    }
  }

  lemma WriteIsWon(w: World, request: nat)
    requires Sane(w) && request in w.inFlight && StillOpen(w.rows, w.inFlight[request])
    ensures RowsAreWon(Step(w, AnswerWrite(request)))
  {
    var k := w.inFlight[request];
    var wins := w.wins + [k];
    assert wins[|w.wins|].id == k.id;
    forall id | Won(w.wins, id) ensures Won(wins, id) {
      WonStays(w.wins, k, id);
    }
  }

  lemma WonStays(wins: seq<Ticket>, k: Ticket, id: string)
    requires Won(wins, id)
    ensures Won(wins + [k], id)
  {
    var i :| 0 <= i < |wins| && wins[i].id == id;
    assert (wins + [k])[i].id == id;
  }

  lemma WriteIsSane(w: World, request: nat)
    requires Sane(w) && request in w.inFlight
    ensures Sane(Step(w, AnswerWrite(request)))
  {
    if StillOpen(w.rows, w.inFlight[request]) {
      WriteRecords(w, request);
      WriteIsWon(w, request);
      WriteKeepsSpends(w, request);
    }
  }

  lemma WriteKeepsSpends(w: World, request: nat)
    requires Sane(w) && request in w.inFlight && StillOpen(w.rows, w.inFlight[request])
    ensures SpendsAreApproved(Step(w, AnswerWrite(request)))
  {
    var v := Step(w, AnswerWrite(request));
    forall i | 0 <= i < |w.spends| ensures Spent(v.rows, w.spends[i]) {
      assert Spent(w.rows, w.spends[i]);
    }
  }

  lemma ConsumeIsSane(w: World, id: string, interaction: string, now: int)
    requires Sane(w)
    ensures Sane(Step(w, Consume(id, interaction, now)))
  {
    var v := Step(w, Consume(id, interaction, now));
    if Spendable(w.rows, id, interaction) {
      assert id !in w.spends;
      assert v.spends[|w.spends|] == id;
      forall x | x in v.rows && v.rows[x].consumedAt.Some? ensures x in v.spends {
        assert x == id || x in w.spends;
      }
    }
  }

  lemma StartIsSane(w: World, e: Event)
    requires Sane(w) && Enabled(w, e) && e.Start?
    ensures Sane(Step(w, e))
  {
    var v := Step(w, e);
    forall i | 0 <= i < |w.wins| ensures Recorded(v.rows, v.wins[i]) {
      assert Recorded(w.rows, w.wins[i]);
    }
    forall i | 0 <= i < |w.spends| ensures Spent(v.rows, v.spends[i]) {
      assert Spent(w.rows, w.spends[i]);
    }
  }

  lemma StepIsSane(w: World, e: Event)
    requires Sane(w) && Enabled(w, e)
    ensures Sane(Step(w, e))
  {
    match e
    case Start(_, _, _, _, _, _) =>
      StartIsSane(w, e);
    case AnswerRead(_, _, _, _, _, _) =>
    case AnswerWrite(request) =>
      WriteIsSane(w, request);
    case Consume(id, interaction, now) =>
      ConsumeIsSane(w, id, interaction, now);
  }

  lemma StepExtends(w: World, e: Event)
    requires Sane(w) && Enabled(w, e)
    ensures Extends(w.rows, Step(w, e).rows)
  {
  }

  lemma {:induction false} RunIsSane(w: World, events: seq<Event>)
    requires Sane(w) && Legal(w, events)
    ensures Sane(Run(w, events)) && Extends(w.rows, Run(w, events).rows)
    decreases events
  {
    if events == [] {
    } else {
      StepIsSane(w, events[0]);
      StepExtends(w, events[0]);
      RunIsSane(Step(w, events[0]), events[1..]);
    }
  }

  /**
   * One answer decides, whatever the interleaving. At most one answer wins each approval, and the
   * row keeps it; an approval says that the stored number was sent, by the person asked, before
   * the expiry; and it is spent at most once, and only if approved.
   */
  lemma OneAnswerDecides(events: seq<Event>)
    requires Legal(EMPTY, events)
    ensures var w := Run(EMPTY, events);
      && (forall i, j :: 0 <= i < j < |w.wins| ==> w.wins[i].id != w.wins[j].id)
      && (forall i :: 0 <= i < |w.wins| ==> Recorded(w.rows, w.wins[i]))
      && (forall i, j :: 0 <= i < j < |w.spends| ==> w.spends[i] != w.spends[j])
      && (forall i :: 0 <= i < |w.spends| ==> Spent(w.rows, w.spends[i]))
  {
    RunIsSane(EMPTY, events);
  }

  lemma ApprovedMeansTheNumberWasSent(events: seq<Event>, id: string) returns (k: Ticket)
    requires Legal(EMPTY, events)
    requires id in Run(EMPTY, events).rows && Run(EMPTY, events).rows[id].result == Some(Approved)
    ensures var w := Run(EMPTY, events);
      && k in w.wins && k.id == id
      && !k.input.deny && k.input.number == Some(w.rows[id].number)
      && k.userId == w.rows[id].userId
      && w.rows[id].answeredAt == Some(k.now) && k.now < w.rows[id].expiresAt
  {
    RunIsSane(EMPTY, events);
    var w := Run(EMPTY, events);
    assert Won(w.wins, id);
    var i :| 0 <= i < |w.wins| && w.wins[i].id == id;
    k := w.wins[i];
    assert Recorded(w.rows, k);
  }

  /** A decision is final: whatever happens next, every later poll shows the same verdict. */
  lemma VerdictIsFinal(
        before: seq<Event>, after: seq<Event>, id: string, interaction: string, v: Verdict, now: int, later: int)
    requires Legal(EMPTY, before) && Legal(Run(EMPTY, before), after)
    requires StateOf(Run(EMPTY, before).rows, id, interaction, now) == Some(Decided(v))
    ensures StateOf(Run(Run(EMPTY, before), after).rows, id, interaction, later) == Some(Decided(v))
  {
    RunIsSane(EMPTY, before);
    RunIsSane(Run(EMPTY, before), after);
    var a, b := Run(EMPTY, before).rows, Run(Run(EMPTY, before), after).rows;
    assert Later(a[id], b[id]);
  }

  /** An answer that was told its verdict is the one the row shows from then on. */
  lemma ToldIsTrue(w: World, request: nat, after: seq<Event>)
    requires Sane(w) && request in w.inFlight && StillOpen(w.rows, w.inFlight[request])
    requires Legal(Step(w, AnswerWrite(request)), after)
    ensures var k := w.inFlight[request];
      Recorded(Run(Step(w, AnswerWrite(request)), after).rows, k)
  {
    var k := w.inFlight[request];
    var v := Step(w, AnswerWrite(request));
    StepIsSane(w, AnswerWrite(request));
    assert Recorded(v.rows, k);
    RunIsSane(v, after);
    assert Later(v.rows[k.id], Run(v, after).rows[k.id]);
  }

  /** An answer in flight loses exactly when another one was written first, never because time passed. */
  lemma LosersFindItAnswered(w: World, request: nat)
    requires Sane(w) && request in w.inFlight
    ensures var k := w.inFlight[request];
      !StillOpen(w.rows, k) <==> exists i :: 0 <= i < |w.wins| && w.wins[i].id == k.id
  {
    var k := w.inFlight[request];
    assert Fits(w.rows, k);
    if i :| 0 <= i < |w.wins| && w.wins[i].id == k.id {
      assert Recorded(w.rows, w.wins[i]);
    }
    if w.rows[k.id].result.Some? {
      assert Won(w.wins, k.id);
    }
  }

  /** An approval can be spent exactly when it won as approved, in this interaction, and was not spent before. */
  lemma SpendableOnce(w: World, id: string, interaction: string)
    requires Sane(w)
    ensures Spendable(w.rows, id, interaction)
      <==> id in w.rows && w.rows[id].interaction == interaction && id !in w.spends
           && exists i :: 0 <= i < |w.wins| && w.wins[i].id == id && w.wins[i].verdict == Approved
  {
    if i :| 0 <= i < |w.wins| && w.wins[i].id == id && w.wins[i].verdict == Approved {
      assert Recorded(w.rows, w.wins[i]);
      forall j | 0 <= j < |w.spends| && w.spends[j] == id ensures w.rows[id].consumedAt.Some? {
        assert Spent(w.rows, w.spends[j]);
      }
    }
    if Spendable(w.rows, id, interaction) {
      assert Won(w.wins, id);
      var i :| 0 <= i < |w.wins| && w.wins[i].id == id;
      assert Recorded(w.rows, w.wins[i]);
      forall j | 0 <= j < |w.spends| ensures w.spends[j] != id {
        assert Spent(w.rows, w.spends[j]);
      }
    }
  }

  // ---- what the phone and the browser are told ----

  /** The answer that decided this approval. */
  ghost predicate WonWith(w: World, id: string, v: Verdict) {
    exists i :: 0 <= i < |w.wins| && w.wins[i].id == id && w.wins[i].verdict == v
  }

  /** A verdict says what the winning answer was: a denial, the stored number, or another one. */
  lemma VerdictSaysWhatWasSent(events: seq<Event>, id: string) returns (k: Ticket)
    requires Legal(EMPTY, events)
    requires id in Run(EMPTY, events).rows && Run(EMPTY, events).rows[id].result.Some?
    ensures var w := Run(EMPTY, events);
      && k in w.wins && k.id == id && k.userId == w.rows[id].userId
      && var v, right := w.rows[id].result.value, k.input.number == Some(w.rows[id].number);
         && (v == Denied <==> k.input.deny)
         && (v == Approved <==> !k.input.deny && right)
         && (v == WrongNumber <==> !k.input.deny && !right)
  {
    RunIsSane(EMPTY, events);
    var w := Run(EMPTY, events);
    assert Won(w.wins, id);
    var i :| 0 <= i < |w.wins| && w.wins[i].id == id;
    k := w.wins[i];
    assert Recorded(w.rows, k);
  }

  /** What a poll answers, by the answers that have won: the verdict of the one, else whether time is left. */
  lemma PollsExactly(w: World, id: string, interaction: string, now: int)
    requires Sane(w)
    ensures var s := StateOf(w.rows, id, interaction, now);
      && (s.None? <==> id !in w.rows || w.rows[id].interaction != interaction)
      && (s.Some? ==> forall v :: s == Some(Decided(v)) <==> WonWith(w, id, v))
      && (s.Some? ==> (s == Some(Pending) <==> !Won(w.wins, id) && now < w.rows[id].expiresAt))
      && (s.Some? ==> (s == Some(PastExpiry) <==> !Won(w.wins, id) && w.rows[id].expiresAt <= now))
  {
    if i :| 0 <= i < |w.wins| && w.wins[i].id == id {
      assert Recorded(w.rows, w.wins[i]);
    }
    forall v | WonWith(w, id, v) ensures id in w.rows && w.rows[id].result == Some(v) {
      var i :| 0 <= i < |w.wins| && w.wins[i].id == id && w.wins[i].verdict == v;
      assert Recorded(w.rows, w.wins[i]);
    }
  }

  /** An answer is taken up exactly by the person asked, with nothing written yet, in time; else it is told why. */
  lemma AnswersExactly(w: World, id: string, userId: string, input: Input, grantId: string, now: int)
    requires Sane(w)
    ensures var r := ReadFor(w.rows, id, userId, input, grantId, now);
      var mine := id in w.rows && w.rows[id].userId == userId;
      && (r.Proceed? <==> mine && StateOf(w.rows, id, w.rows[id].interaction, now) == Some(Pending))
      && (r == Replied(NotYours) <==> !mine)
      && (r == Replied(Gone) <==> mine && Won(w.wins, id))
      && (r == Replied(Expired) <==> mine && StateOf(w.rows, id, w.rows[id].interaction, now) == Some(PastExpiry))
  {
    if id in w.rows {
      PollsExactly(w, id, w.rows[id].interaction, now);
    }
  }

  /** The write decides exactly an open row of the person asked, in time, and leaves every other row alone. */
  lemma WritesExactly(t: Table, k: Ticket, id: string)
    ensures Written(t, k).Keys == t.Keys
    ensures id in t && Written(t, k)[id] != t[id] ==> id == k.id
    ensures k.id in t && t[k.id].answeredAt.None? ==>
      (Written(t, k)[k.id].answeredAt == Some(k.now) <==> t[k.id].userId == k.userId && k.now < t[k.id].expiresAt)
    ensures k.id in t && t[k.id].answeredAt.Some? ==> Written(t, k) == t
  {
  }

  /**
   A new approval waits exactly two minutes, and the first uninterrupted answer of the person asked
   decides it: denied, approved by the number it was started with, or wrong.
   */
  lemma FirstAnswerDecides(
      w: World, id: string, userId: string, interaction: string, number: int, choices: seq<int>, start: int,
      request: nat, input: Input, grantId: string, now: int)
    requires Sane(w) && id !in w.rows && request !in w.inFlight
    ensures var asked := Step(w, Start(id, userId, interaction, number, choices, start));
      && StateOf(asked.rows, id, interaction, now) == Some(if now < start + 120_000 then Pending else PastExpiry)
      && var read := Step(asked, AnswerRead(request, id, userId, input, grantId, now));
         (request in read.inFlight <==> now < start + 120_000)
         && (request in read.inFlight ==>
              StateOf(Step(read, AnswerWrite(request)).rows, id, interaction, now)
              == Some(Decided(if input.deny then Denied
                              else if input.number == Some(number) then Approved else WrongNumber)))
  {
  }
}
