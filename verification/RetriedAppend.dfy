/** `appendCreditEvent`: the ledger writer inside the serializable retry loop, beside any number of other writers. */
module RetriedAppend {
  import opened Sequences
  import opened HashChain
  import opened CreditLedger
  import opened Transactions

  /** What the writer returns: the event's id and hash. */
  type Receipt = (nat, seq<byte>)

  /** Steps of any transactions in any order; of those of tx, only what a call does before its event is in. */
  predicate BeforeAppend(steps: seq<Step>, tx: nat, r: Request) {
    forall i :: 0 <= i < |steps| ==> match steps[i]
                                     case LockHead(t, p) => t == tx ==> p == r.provider
                                     case Append(t, _) => t != tx
                                     case Abort(t) => t != tx
                                     case _ => true
  }

  /** One attempt: it either commits its event last or is rolled back. */
  function AttemptSteps(before: seq<Step>, tx: nat, r: Request, a: Answers<Receipt>): seq<Step> {
    before + [if Outcome(a).Ok? then Append(tx, r) else Abort(tx)]
  }

  /** The driver does not invent answers: a call that returned a receipt had got its number and inserted that row. */
  predicate Truthful(x: Schema, db: Ledger, tx: nat, r: Request, a: Answers<Receipt>) {
    Outcome(a).Ok? ==>
      && tx in db.writers && db.writers[tx].Numbered? && db.writers[tx].provider == r.provider && Acceptable(x, db, r)
      && var row := NewRow(x, db.writers[tx], r);
         row.Some? && Outcome(a).value == (row.value.id, row.value.hash)
  }

  predicate GoesOn(a: Answers<Receipt>, left: nat) {
    Retryable(Outcome(a)) && left > 1
  }

  /** All steps of the retry loop from its call number n on; before(k) is what happens during call k. */
  function Session(before: nat -> seq<Step>, tx: nat, r: Request, answers: nat -> Answers<Receipt>, n: nat,
                   left: nat): seq<Step>
    decreases left
  {
    if left == 0 then []
    else AttemptSteps(before(n), tx, r, answers(n)) +
         (if GoesOn(answers(n), left) then Session(before, tx, r, answers, n + 1, left - 1) else [])
  }

  predicate TruthfulSession(x: Schema, db: Ledger, before: nat -> seq<Step>, tx: nat, r: Request,
                            answers: nat -> Answers<Receipt>, n: nat, left: nat)
    decreases left
  {
    left == 0 ||
    (BeforeAppend(before(n), tx, r) && Truthful(x, Run(x, db, before(n)), tx, r, answers(n)) &&
     (GoesOn(answers(n), left) ==>
        TruthfulSession(x, Run(x, db, AttemptSteps(before(n), tx, r, answers(n))), before, tx, r, answers, n + 1,
                        left - 1)))
  }

  // ---- The rows and numbers of one transaction ----

  function OwnOfStep(x: Schema, db: Ledger, step: Step, tx: nat): seq<Row> {
    if step.Append? && step.tx == tx && |Apply(x, db, step).events| > |db.events| then
      Apply(x, db, step).events[|db.events|..]
    else []
  }

  /** The rows that tx inserted in a run. */
  function Own(x: Schema, db: Ledger, steps: seq<Step>, tx: nat): seq<Row>
    decreases |steps|
  {
    if steps == [] then [] else OwnOfStep(x, db, steps[0], tx) + Own(x, Apply(x, db, steps[0]), steps[1..], tx)
  }

  predicate TakesNumber(db: Ledger, step: Step, tx: nat) {
    step.TakeNumber? && step.tx == tx && tx in db.writers && db.writers[tx].Holding?
  }

  /** How many sequence values tx took in a run. */
  function Spent(x: Schema, db: Ledger, steps: seq<Step>, tx: nat): nat
    decreases |steps|
  {
    if steps == [] then 0
    else (if TakesNumber(db, steps[0], tx) then 1 else 0) + Spent(x, Apply(x, db, steps[0]), steps[1..], tx)
  }

  lemma {:induction false} RunConcat(x: Schema, db: Ledger, s: seq<Step>, t: seq<Step>)
    ensures Run(x, db, s + t) == Run(x, Run(x, db, s), t)
    decreases |s|
  {
    if s == [] {
      assert s + t == t;
    } else {
      assert (s + t)[0] == s[0] && (s + t)[1..] == s[1..] + t;
      RunConcat(x, Apply(x, db, s[0]), s[1..], t);
    }
  }

  lemma {:induction false} OwnConcat(x: Schema, db: Ledger, s: seq<Step>, t: seq<Step>, tx: nat)
    ensures Own(x, db, s + t, tx) == Own(x, db, s, tx) + Own(x, Run(x, db, s), t, tx)
    decreases |s|
  {
    if s == [] {
      assert s + t == t;
    } else {
      assert (s + t)[0] == s[0] && (s + t)[1..] == s[1..] + t;
      OwnConcat(x, Apply(x, db, s[0]), s[1..], t, tx);
    }
  }

  lemma {:induction false} SpentConcat(x: Schema, db: Ledger, s: seq<Step>, t: seq<Step>, tx: nat)
    ensures Spent(x, db, s + t, tx) == Spent(x, db, s, tx) + Spent(x, Run(x, db, s), t, tx)
    decreases |s|
  {
    if s == [] {
      assert s + t == t;
    } else {
      assert (s + t)[0] == s[0] && (s + t)[1..] == s[1..] + t;
      SpentConcat(x, Apply(x, db, s[0]), s[1..], t, tx);
    }
  }

  /** tx has its number already, holds the lock, or is not there. */
  function Needs(db: Ledger, tx: nat): nat {
    if tx in db.writers && db.writers[tx].Numbered? then 0 else 1
  }

  lemma StepBefore(x: Schema, db: Ledger, step: Step, tx: nat, r: Request)
    requires BeforeAppend([step], tx, r)
    ensures OwnOfStep(x, db, step, tx) == []
    ensures (if TakesNumber(db, step, tx) then 1 else 0) + Needs(Apply(x, db, step), tx) <= Needs(db, tx)
  {
    assert [step][0] == step;
  }

  lemma {:induction false} BeforeAppendOwnsNothing(x: Schema, db: Ledger, steps: seq<Step>, tx: nat, r: Request)
    requires BeforeAppend(steps, tx, r)
    ensures Own(x, db, steps, tx) == [] && Spent(x, db, steps, tx) <= Needs(db, tx)
    decreases |steps|
  {
    if steps != [] {
      StepBefore(x, db, steps[0], tx, r);
      BeforeAppendOwnsNothing(x, Apply(x, db, steps[0]), steps[1..], tx, r);
    }
  }

  lemma LastStep(x: Schema, db: Ledger, step: Step, tx: nat)
    ensures Run(x, db, [step]) == Apply(x, db, step)
    ensures Own(x, db, [step], tx) == OwnOfStep(x, db, step, tx)
    ensures Spent(x, db, [step], tx) == if TakesNumber(db, step, tx) then 1 else 0
  {
    var after := Apply(x, db, step);
    assert [step][1..] == [] && Run(x, after, []) == after && Own(x, after, [], tx) == [] &&
           Spent(x, after, [], tx) == 0;
  }

  predicate IsReceiptOf(row: Row, receipt: Receipt, r: Request) {
    && receipt == (row.id, row.hash) && row.provider == r.provider && row.eventType == r.eventType
    && row.units == r.units && row.weightVersion == r.weightVersion && row.credits == r.credits
    && row.matter == r.matter && row.evidenceRef == r.evidenceRef && row.occurredAt == r.occurredAt
  }

  /** What an attempt or a whole session leaves of its own. */
  predicate Leaves(x: Schema, db: Ledger, steps: seq<Step>, tx: nat, r: Request, outcome: Result<Receipt, Failure>) {
    var own := Own(x, db, steps, tx);
    match outcome
    case Err(_) => own == []
    case Ok(receipt) => |own| == 1 && IsReceiptOf(own[0], receipt, r) && own[0] in Run(x, db, steps).events
  }

  lemma NewRowIsReceipt(x: Schema, w: Writer, r: Request)
    requires w.Numbered? && w.provider == r.provider && NewRow(x, w, r).Some?
    ensures var row := NewRow(x, w, r).value; IsReceiptOf(row, (row.id, row.hash), r)
  {
  }

  lemma AppendedIsOwn(x: Schema, db: Ledger, tx: nat, r: Request, row: Row)
    requires tx in db.writers && row.provider in db.balances && ApplyAppend(x, db, tx, r) == AfterAppend(db, tx, row)
    ensures var after := Apply(x, db, Append(tx, r));
            OwnOfStep(x, db, Append(tx, r), tx) == [row] && row in after.events && tx !in after.writers
  {
    assert (db.events + [row])[|db.events|..] == [row];
    assert (db.events + [row])[|db.events|] == row;
  }

  lemma LastIsOwn(x: Schema, db: Ledger, tx: nat, r: Request, a: Answers<Receipt>)
    requires Invariant(x, db) && Truthful(x, db, tx, r, a) && Outcome(a).Ok?
    ensures var after := Apply(x, db, Append(tx, r));
            var row := NewRow(x, db.writers[tx], r).value;
            && OwnOfStep(x, db, Append(tx, r), tx) == [row] && row in after.events && tx !in after.writers
            && IsReceiptOf(row, Outcome(a).value, r)
  {
    var row := NewRow(x, db.writers[tx], r).value;
    assert row.provider in db.balances && ApplyAppend(x, db, tx, r) == AfterAppend(db, tx, row) by {
      AppendIsApplied(x, db, tx, r);
    }
    AppendedIsOwn(x, db, tx, r, row);
    NewRowIsReceipt(x, db.writers[tx], r);
  }

  lemma AttemptIsItsLast(x: Schema, db: Ledger, before: seq<Step>, tx: nat, r: Request, last: Step)
    requires BeforeAppend(before, tx, r) && !last.TakeNumber?
    ensures var mid := Run(x, db, before);
            && Run(x, db, before + [last]) == Apply(x, mid, last)
            && Own(x, db, before + [last], tx) == OwnOfStep(x, mid, last, tx)
            && Spent(x, db, before + [last], tx) <= 1
  {
    BeforeAppendOwnsNothing(x, db, before, tx, r);
    RunConcat(x, db, before, [last]);
    OwnConcat(x, db, before, [last], tx);
    SpentConcat(x, db, before, [last], tx);
    LastStep(x, Run(x, db, before), last, tx);
  }

  lemma CommittedAttempt(x: Schema, db: Ledger, before: seq<Step>, tx: nat, r: Request, a: Answers<Receipt>)
    requires Invariant(x, Run(x, db, before)) && Outcome(a).Ok?
    requires BeforeAppend(before, tx, r) && Truthful(x, Run(x, db, before), tx, r, a)
    ensures var steps := AttemptSteps(before, tx, r, a);
            Leaves(x, db, steps, tx, r, Outcome(a)) && Spent(x, db, steps, tx) <= 1 && tx !in Run(x, db, steps).writers
  {
    AttemptIsItsLast(x, db, before, tx, r, Append(tx, r));
    LastIsOwn(x, Run(x, db, before), tx, r, a);
  }

  lemma RolledBackAttempt(x: Schema, db: Ledger, before: seq<Step>, tx: nat, r: Request, a: Answers<Receipt>)
    requires Outcome(a).Err? && BeforeAppend(before, tx, r)
    ensures var steps := AttemptSteps(before, tx, r, a);
            Leaves(x, db, steps, tx, r, Outcome(a)) && Spent(x, db, steps, tx) <= 1 && tx !in Run(x, db, steps).writers
  {
    AttemptIsItsLast(x, db, before, tx, r, Abort(tx));
  }

  /** One attempt leaves its event if it is told to have committed, and nothing otherwise but at most one lost
      number. */
  lemma AttemptLeaves(x: Schema, db: Ledger, before: seq<Step>, tx: nat, r: Request, a: Answers<Receipt>)
    requires Invariant(x, db) && BeforeAppend(before, tx, r) && Truthful(x, Run(x, db, before), tx, r, a)
    ensures var steps := AttemptSteps(before, tx, r, a);
            && Leaves(x, db, steps, tx, r, Outcome(a)) && Spent(x, db, steps, tx) <= 1
            && Invariant(x, Run(x, db, steps)) && tx !in Run(x, db, steps).writers
  {
    RunKeeps(x, db, AttemptSteps(before, tx, r, a));
    if Outcome(a).Ok? {
      RunKeeps(x, db, before);
      CommittedAttempt(x, db, before, tx, r, a);
    } else {
      RolledBackAttempt(x, db, before, tx, r, a);
    }
  }

  /** Exactly once: however often the append is retried and whatever other transactions do in between, exactly one event
      of its own is in the ledger if the caller gets a receipt, namely that one, and none otherwise; failed attempts
      cost sequence values, at most one each. */
  lemma {:induction false} AppendedExactlyOnce(x: Schema, db: Ledger, before: nat -> seq<Step>, tx: nat, r: Request,
                                               answers: nat -> Answers<Receipt>, n: nat, left: nat)
    requires Invariant(x, db) && TruthfulSession(x, db, before, tx, r, answers, n, left)
    ensures var steps, retried := Session(before, tx, r, answers, n, left), Retry(answers, n, left);
            && Leaves(x, db, steps, tx, r, retried.outcome) && Spent(x, db, steps, tx) <= retried.calls
            && Invariant(x, Run(x, db, steps)) && db.events <= Run(x, db, steps).events
    decreases left
  {
    HistoryIsAppendOnly(x, db, Session(before, tx, r, answers, n, left));
    if left > 0 {
      var first := AttemptSteps(before(n), tx, r, answers(n));
      AttemptLeaves(x, db, before(n), tx, r, answers(n));
      if GoesOn(answers(n), left) {
        var rest := Session(before, tx, r, answers, n + 1, left - 1);
        AppendedExactlyOnce(x, Run(x, db, first), before, tx, r, answers, n + 1, left - 1);
        RunConcat(x, db, first, rest);
        OwnConcat(x, db, first, rest, tx);
        SpentConcat(x, db, first, rest, tx);
        assert Own(x, db, first, tx) == [];
        assert [] + Own(x, Run(x, db, first), rest, tx) == Own(x, Run(x, db, first), rest, tx);
      } else {
        assert first + [] == first;
      }
    }
  }
}
