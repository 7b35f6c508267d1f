/** The selection and flag update of `sendDueDateReminders`
    (src/services/automated_job/due_loan_reminders.ts:113-165). The loop
    that sends the notifications is `LoanLedger.SendDueDateReminders` in
    module Ledger; this module states which loans it may touch and what it
    writes. Times are minutes since the epoch in local time. */
module DueReminders {
  import opened Common
  import opened Loans

  /** The calendar day a time falls on. */
  function Day(t: int): int {
    t / MinutesPerDay
  }

  /** 00:00 of the day two days after the current one. */
  function WindowStart(now: int): int {
    (Day(now) + 2) * MinutesPerDay
  }

  /** 23:59 of that day; the last minute holds 23:59:59.999. */
  function WindowEnd(now: int): int {
    WindowStart(now) + MinutesPerDay - 1
  }

  /** `endDate BETWEEN startOfDueDate AND endOfDueDate`. */
  predicate InWindow(t: int, now: int) {
    WindowStart(now) <= t <= WindowEnd(now)
  }

  /** The window is exactly the calendar day two days after today. */
  lemma InWindowIff(t: int, now: int)
    ensures InWindow(t, now) <==> Day(t) == Day(now) + 2
  {
    var d, q, r := Day(now) + 2, Day(t), t % MinutesPerDay;
    assert t == q * MinutesPerDay + r && 0 <= r < MinutesPerDay;
    assert t - WindowStart(now) == (q - d) * MinutesPerDay + r;
    WholeDays(q - d, r);
  }

  /** A multiple of a day plus a minute of the day lies within the first
      day only when the multiple is zero. */
  lemma WholeDays(k: int, r: int)
    requires 0 <= r < MinutesPerDay
    ensures 0 <= k * MinutesPerDay + r < MinutesPerDay <==> k == 0
  {
    if k >= 1 {
      assert k * MinutesPerDay >= MinutesPerDay;
    } else if k <= -1 {
      assert k * MinutesPerDay <= -MinutesPerDay;
    }
  }

  /** The `where` of the `findAll`: active, not yet reminded, and due on
      the day after tomorrow. */
  predicate DueForReminder(l: Loan, now: int) {
    l.status == Active && !l.reminderSent && l.endDate.Some? && InWindow(l.endDate.value, now)
  }

  function Selected(loans: map<string, Loan>, now: int): (s: set<string>)
    ensures forall id :: id in s <==> id in loans && DueForReminder(loans[id], now)
  {
    set id | id in loans && DueForReminder(loans[id], now)
  }

  /** `loan.update({ reminderSent: true })` for every loan in `ids`. */
  function MarkReminded(loans: map<string, Loan>, ids: set<string>): (m: map<string, Loan>)
    ensures m.Keys == loans.Keys
  {
    map id | id in loans :: if id in ids then loans[id].(reminderSent := true) else loans[id]
  }

  /** Marking writes the flag of the marked loans and nothing else. */
  lemma MarkWritesOnlyTheFlag(loans: map<string, Loan>, ids: set<string>, id: string)
    requires id in loans
    ensures var m := MarkReminded(loans, ids);
            && m[id].reminderSent == (loans[id].reminderSent || id in ids)
            && m[id].(reminderSent := loans[id].reminderSent) == loans[id]
            && (id !in ids ==> m[id] == loans[id])
  {
  }

  /** A second run on the same day selects what the first run selected
      minus what it marked: a reminded loan is never reminded again. */
  lemma SweepIdempotent(loans: map<string, Loan>, ids: set<string>, now: int, later: int)
    requires Day(later) == Day(now)
    ensures Selected(MarkReminded(loans, ids), later) == Selected(loans, now) - ids
  {
    var m := MarkReminded(loans, ids);
    forall id | id in loans
      ensures DueForReminder(m[id], later) <==> DueForReminder(loans[id], now) && id !in ids
    {
      assert WindowStart(later) == WindowStart(now);
    }
  }

  /** Marking one more loan updates that loan's flag in place. */
  lemma MarkOneMore(loans: map<string, Loan>, ids: set<string>, id: string)
    requires id in loans && id !in ids
    ensures var m := MarkReminded(loans, ids);
            MarkReminded(loans, ids + {id}) == m[id := loans[id].(reminderSent := true)]
  {
    var m := MarkReminded(loans, ids);
    var m' := MarkReminded(loans, ids + {id});
    assert m'.Keys == m[id := loans[id].(reminderSent := true)].Keys;
    forall k | k in m'
      ensures m'[k] == m[id := loans[id].(reminderSent := true)][k]
    {
    }
  }

  /** Marking the same loans twice writes what marking them once does. */
  lemma MarkTwice(loans: map<string, Loan>, ids: set<string>)
    ensures MarkReminded(MarkReminded(loans, ids), ids) == MarkReminded(loans, ids)
  {
    var m := MarkReminded(loans, ids);
    assert forall id :: id in m && id in ids ==> m[id].reminderSent;
  }

  /** What the notification loop knows once it has visited every selected
      loan outside `todo`: the flagged loans have a borrower and none of
      them threw, the undelivered ones are the flagged loans whose e-mail
      failed, and a visited loan is flagged exactly when it has a borrower. */
  ghost predicate Visited(loans: map<string, Loan>, selected: set<string>, todo: set<string>,
                          flagged: set<string>, undelivered: set<string>,
                          users: set<string>, undeliverable: set<string>, throwing: set<string>)
  {
    && selected <= loans.Keys
    && todo <= selected && flagged <= selected && todo !! flagged && flagged !! throwing
    && (forall id :: id in flagged ==> loans[id].userId in users)
    && undelivered <= flagged
    && (forall id :: id in flagged ==> (id in undelivered <==> loans[id].userId in undeliverable))
    && (forall id :: id in selected && id !in todo ==> (id in flagged <==> loans[id].userId in users))
  }

  /** Visiting a loan without a borrower flags nothing. */
  lemma VisitSkipped(loans: map<string, Loan>, selected: set<string>, todo: set<string>,
                     flagged: set<string>, undelivered: set<string>,
                     users: set<string>, undeliverable: set<string>, throwing: set<string>, id: string)
    requires Visited(loans, selected, todo, flagged, undelivered, users, undeliverable, throwing)
    requires id in todo && loans[id].userId !in users
    ensures Visited(loans, selected, todo - {id}, flagged, undelivered, users, undeliverable, throwing)
  {
  }

  /** Visiting a loan with a borrower and no throwing step flags it, and
      records it as undelivered when its e-mail failed. */
  lemma VisitFlagged(loans: map<string, Loan>, selected: set<string>, todo: set<string>,
                     flagged: set<string>, undelivered: set<string>,
                     users: set<string>, undeliverable: set<string>, throwing: set<string>, id: string)
    requires Visited(loans, selected, todo, flagged, undelivered, users, undeliverable, throwing)
    requires id in todo && loans[id].userId in users && id !in throwing
    ensures var u := if loans[id].userId in undeliverable then undelivered + {id} else undelivered;
            Visited(loans, selected, todo - {id}, flagged + {id}, u, users, undeliverable, throwing)
  {
  }

  /** What the sweep logs: the number of loans selected (not the number
      flagged), or that an exception ended the batch. */
  datatype SweepReport = Logged(count: nat) | ErrorLogged
}
