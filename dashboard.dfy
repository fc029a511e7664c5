/**
 * The dashboard page: the member store it owns, the aggregates it derives from the
 * store on every render, the add-member handler, and the reminder count.
 */
module Dashboard {
  import opened Wrappers
  import opened MemberList
  import opened AddMemberDialog

  /** The fixed monthly contribution goal, in KES. */
  const ContributionGoal: int := 20000

  /** The store the page starts with: four members with ids 1 to 4. */
  function Seed(): (r: seq<Member>)
    ensures |r| == 4 && SequentialIds(r)
  {
    [ Member(1, "Mary Wanjiku", "+254712345678", 5000, Paid, "2024-07-01"),
      Member(2, "John Kamau", "+254723456789", 3000, Pending, "2024-06-15"),
      Member(3, "Grace Njeri", "+254734567890", 5000, Paid, "2024-07-02"),
      Member(4, "Peter Mwangi", "+254745678901", 0, Overdue, "2024-05-20") ]
  }

  // ---------------------------------------------------------------------------
  // Total contributions

  /** The arithmetic sum of the members' contributions. */
  function SumOf(members: seq<Member>): int {
    if members == [] then 0 else members[0].contribution + SumOf(members[1..])
  }

  /** `members.reduce((sum, member) => sum + member.contribution, acc)`: a left fold,
      which adds up to the start value plus the sum of the contributions. */
  function Reduce(members: seq<Member>, acc: int): (r: int)
    ensures r == acc + SumOf(members)
  {
    if members == [] then acc else Reduce(members[1..], acc + members[0].contribution)
  }

  /** `totalContributions`: the sum of every member's contribution (0 for an empty store). */
  function TotalContributions(members: seq<Member>): (r: int)
    ensures r == SumOf(members)
  {
    Reduce(members, 0)
  }

  lemma {:induction false} SumOfAppend(a: seq<Member>, b: seq<Member>)
    ensures SumOf(a + b) == SumOf(a) + SumOf(b)
  {
    if a == [] {
      assert a + b == b;
    } else {
      SumOfAppend(a[1..], b);
      assert (a + b)[1..] == a[1..] + b;
    }
  }

  /** Two stores that agree on every contribution except the one at `k`. */
  lemma {:induction false} SumOfPointwise(a: seq<Member>, b: seq<Member>, k: nat)
    requires |a| == |b| && k < |a|
    requires forall j :: 0 <= j < |a| && j != k ==> a[j].contribution == b[j].contribution
    ensures SumOf(b) == SumOf(a) - a[k].contribution + b[k].contribution
  {
    if k == 0 {
      SumOfSame(a[1..], b[1..]);
    } else {
      SumOfPointwise(a[1..], b[1..], k - 1);
    }
  }

  lemma {:induction false} SumOfSame(a: seq<Member>, b: seq<Member>)
    requires |a| == |b|
    requires forall j :: 0 <= j < |a| ==> a[j].contribution == b[j].contribution
    ensures SumOf(a) == SumOf(b)
  {
    if a != [] {
      SumOfSame(a[1..], b[1..]);
    }
  }

  // ---------------------------------------------------------------------------
  // Status counts

  /** `members.filter(m => m.status === s)`. */
  function WithStatus(members: seq<Member>, s: Status): (r: seq<Member>)
    ensures |r| <= |members|
    ensures forall i :: 0 <= i < |r| ==> r[i].status == s
    ensures r == [] <==> forall i :: 0 <= i < |members| ==> members[i].status != s
  {
    if members == [] then []
    else
      var rest := WithStatus(members[1..], s);
      if members[0].status == s then [members[0]] + rest else rest
  }

  /** The filter keeps exactly the members with status `s`. */
  lemma {:induction false} WithStatusMembers(members: seq<Member>, s: Status)
    ensures forall m :: m in WithStatus(members, s) <==> m in members && m.status == s
  {
    if members != [] {
      WithStatusMembers(members[1..], s);
      assert forall m :: m in members <==> m == members[0] || m in members[1..];
    }
  }

  /** The number of paid members: zero exactly when nobody is paid. */
  function PaidMembers(members: seq<Member>): (r: nat)
    ensures r <= |members|
    ensures r == 0 <==> forall i :: 0 <= i < |members| ==> members[i].status != Paid
  {
    |WithStatus(members, Paid)|
  }

  /** The number of pending members: zero exactly when nobody is pending. */
  function PendingMembers(members: seq<Member>): (r: nat)
    ensures r <= |members|
    ensures r == 0 <==> forall i :: 0 <= i < |members| ==> members[i].status != Pending
  {
    |WithStatus(members, Pending)|
  }

  /** The number of overdue members: zero exactly when nobody is overdue. */
  function OverdueMembers(members: seq<Member>): (r: nat)
    ensures r <= |members|
    ensures r == 0 <==> forall i :: 0 <= i < |members| ==> members[i].status != Overdue
  {
    |WithStatus(members, Overdue)|
  }

  /** Every member has exactly one of the three statuses, so the counts add up to the store. */
  lemma {:induction false} StatusCountsPartition(members: seq<Member>)
    ensures PaidMembers(members) + PendingMembers(members) + OverdueMembers(members) == |members|
  {
    if members != [] {
      StatusCountsPartition(members[1..]);
    }
  }

  lemma {:induction false} WithStatusAppend(members: seq<Member>, x: Member, s: Status)
    ensures WithStatus(members + [x], s) == WithStatus(members, s) + (if x.status == s then [x] else [])
  {
    var ys := members + [x];
    if members == [] {
      assert ys == [x];
    } else {
      WithStatusAppend(members[1..], x, s);
      assert ys[0] == members[0] && ys[1..] == members[1..] + [x];
    }
  }

  // ---------------------------------------------------------------------------
  // Reminders and the remaining amount

  /** `members.filter(m => m.status !== "paid")`: who a reminder goes to. */
  function UnpaidMembers(members: seq<Member>): (r: seq<Member>)
    ensures |r| <= |members|
    ensures forall m :: m in r <==> m in members && m.status != Paid
  {
    if members == [] then []
    else
      var rest := UnpaidMembers(members[1..]);
      assert forall m :: m in members <==> m == members[0] || m in members[1..];
      if members[0].status != Paid then [members[0]] + rest else rest
  }

  /** The number of reminders sent is the number of pending plus overdue members. */
  lemma {:induction false} ReminderCount(members: seq<Member>)
    ensures |UnpaidMembers(members)| == PendingMembers(members) + OverdueMembers(members)
  {
    if members != [] {
      ReminderCount(members[1..]);
    }
  }

  /** `contributionGoal - totalContributions`: what is still to be collected; negative
      exactly when the goal has been exceeded. */
  function Remaining(goal: int, members: seq<Member>): (r: int)
    ensures r + TotalContributions(members) == goal
    ensures r < 0 <==> TotalContributions(members) > goal
  {
    goal - TotalContributions(members)
  }

  // ---------------------------------------------------------------------------
  // Adding a member

  /** The record `handleAddMember` builds: the next id, the dialog's name and phone,
      nothing contributed yet, pending, dated today. */
  function NewMember(id: int, data: MemberData, today: string): (r: Member)
    ensures r.id == id && r.name == data.name && r.phone == data.phone
    ensures r.contribution == 0 && r.status == Pending && r.lastPayment == today
  {
    Member(id, data.name, data.phone, 0, Pending, today)
  }

  /** `[...members, newMember]`: one longer, the old members untouched and in order,
      the new member last. */
  function AppendMember(members: seq<Member>, data: MemberData, today: string): (r: seq<Member>)
    ensures |r| == |members| + 1
    ensures r[..|members|] == members
    ensures r[|members|].id == |members| + 1
    ensures r[|members|].name == data.name && r[|members|].phone == data.phone
    ensures r[|members|].contribution == 0 && r[|members|].status == Pending
    ensures r[|members|].lastPayment == today
  {
    members + [NewMember(|members| + 1, data, today)]
  }

  /** Adding a member leaves the total unchanged and adds one to the pending count only. */
  lemma AddMemberAggregates(members: seq<Member>, data: MemberData, today: string)
    ensures var r := AppendMember(members, data, today);
      && TotalContributions(r) == TotalContributions(members)
      && PendingMembers(r) == PendingMembers(members) + 1
      && PaidMembers(r) == PaidMembers(members)
      && OverdueMembers(r) == OverdueMembers(members)
  {
    var x := NewMember(|members| + 1, data, today);
    SumOfAppend(members, [x]);
    WithStatusAppend(members, x, Paid);
    WithStatusAppend(members, x, Pending);
    WithStatusAppend(members, x, Overdue);
  }

  // ---------------------------------------------------------------------------
  // Identifiers

  /** The ids are exactly 1, 2, ..., n in store order. */
  predicate SequentialIds(members: seq<Member>) {
    forall i :: 0 <= i < |members| ==> members[i].id == i + 1
  }

  /** Sequential ids are unique. */
  lemma SequentialIdsUnique(members: seq<Member>)
    requires SequentialIds(members)
    ensures forall i, j :: 0 <= i < j < |members| ==> members[i].id != members[j].id
  {
  }

  /** With ids 1..n, adding a member gives ids 1..n+1. */
  lemma AddMemberKeepsSequentialIds(members: seq<Member>, data: MemberData, today: string)
    requires SequentialIds(members)
    ensures SequentialIds(AppendMember(members, data, today))
  {
  }

  /** Status updates never touch ids. */
  lemma UpdateKeepsSequentialIds(members: seq<Member>, memberId: int, newStatus: Status,
                                 amount: Option<int>, today: string)
    requires SequentialIds(members)
    ensures SequentialIds(UpdatePaymentStatus(members, memberId, newStatus, amount, today))
  {
  }

  /** When exactly one member has the id, an update with an amount moves the total by the
      difference between the new amount and that member's old contribution. */
  lemma UpdateChangesTotal(members: seq<Member>, k: nat, newStatus: Status, amount: int, today: string)
    requires k < |members|
    requires forall j :: 0 <= j < |members| && j != k ==> members[j].id != members[k].id
    ensures TotalContributions(UpdatePaymentStatus(members, members[k].id, newStatus, Some(amount), today))
         == TotalContributions(members) - members[k].contribution + amount
  {
    var r := UpdatePaymentStatus(members, members[k].id, newStatus, Some(amount), today);
    SumOfPointwise(members, r, k);
  }

  /** A status update with no amount ("Mark Pending") never changes the total. */
  lemma MarkPendingKeepsTotal(members: seq<Member>, memberId: int, today: string)
    ensures TotalContributions(MemberList.MarkPending(members, memberId, today)) == TotalContributions(members)
  {
    SumOfSame(members, MemberList.MarkPending(members, memberId, today));
  }

  /** Two stores that agree on every status except the one at `k`. */
  lemma {:induction false} StatusCountPointwise(a: seq<Member>, b: seq<Member>, k: nat, s: Status)
    requires |a| == |b| && k < |a|
    requires forall j :: 0 <= j < |a| && j != k ==> a[j].status == b[j].status
    ensures |WithStatus(b, s)| == |WithStatus(a, s)| - (if a[k].status == s then 1 else 0)
                                                     + (if b[k].status == s then 1 else 0)
  {
    if k == 0 {
      StatusCountSame(a[1..], b[1..], s);
    } else {
      StatusCountPointwise(a[1..], b[1..], k - 1, s);
    }
  }

  lemma {:induction false} StatusCountSame(a: seq<Member>, b: seq<Member>, s: Status)
    requires |a| == |b|
    requires forall j :: 0 <= j < |a| ==> a[j].status == b[j].status
    ensures |WithStatus(a, s)| == |WithStatus(b, s)|
  {
    if a != [] {
      StatusCountSame(a[1..], b[1..], s);
    }
  }

  /** When exactly one member has the id, an update moves that member from its old
      status count to the new one and leaves the other counts alone. */
  lemma UpdateMovesStatusCounts(members: seq<Member>, k: nat, newStatus: Status,
                                amount: Option<int>, today: string, s: Status)
    requires k < |members|
    requires forall j :: 0 <= j < |members| && j != k ==> members[j].id != members[k].id
    ensures |WithStatus(UpdatePaymentStatus(members, members[k].id, newStatus, amount, today), s)|
         == |WithStatus(members, s)| - (if members[k].status == s then 1 else 0)
                                     + (if newStatus == s then 1 else 0)
  {
    var r := UpdatePaymentStatus(members, members[k].id, newStatus, amount, today);
    StatusCountPointwise(members, r, k, s);
  }

  // ---------------------------------------------------------------------------
  // The seed store's figures and two scenarios on it

  lemma SeedFigures()
    ensures TotalContributions(Seed()) == 13000
    ensures PaidMembers(Seed()) == 2 && PendingMembers(Seed()) == 1 && OverdueMembers(Seed()) == 1
    ensures Remaining(ContributionGoal, Seed()) == 7000
    ensures |UnpaidMembers(Seed())| == 2
  {
    var s := Seed();
    assert s[1..][1..][1..][1..] == [];
  }

  /** In the seed store, John Kamau (#2) is the only member with id 2. */
  lemma SeedJohnUnique()
    ensures Seed()[1].id == 2 && Seed()[1].status == Pending && Seed()[1].contribution == 3000
    ensures forall j :: 0 <= j < |Seed()| && j != 1 ==> Seed()[j].id != Seed()[1].id
  {
  }

  lemma JohnPaidTotal(today: string)
    ensures TotalContributions(UpdatePaymentStatus(Seed(), 2, Paid, Some(3000), today)) == 13000
  {
    SeedJohnUnique();
    SeedFigures();
    UpdateChangesTotal(Seed(), 1, Paid, 3000, today);
  }

  lemma JohnPaidCounts(today: string)
    ensures var r := UpdatePaymentStatus(Seed(), 2, Paid, Some(3000), today);
      PaidMembers(r) == 3 && PendingMembers(r) == 0
  {
    SeedJohnUnique();
    SeedFigures();
    UpdateMovesStatusCounts(Seed(), 1, Paid, Some(3000), today, Paid);
    UpdateMovesStatusCounts(Seed(), 1, Paid, Some(3000), today, Pending);
  }

  /** Marking John Kamau (#2, pending, 3000) paid with "3000" gives three paid members and
      none pending; the amount replaces his contribution, so the total stays 13000. */
  lemma MarkJohnPaidScenario(today: string)
    ensures var r := MemberList.MarkAsPaid(Seed(), 2, "3000", today);
      PaidMembers(r) == 3 && PendingMembers(r) == 0 && TotalContributions(r) == 13000
  {
    assert AmountFromInput("3000") == 3000 by {
      assert JsStrings.IntToDecimal(3000) == "3000";
      AmountFromDecimal(3000);
    }
    JohnPaidTotal(today);
    JohnPaidCounts(today);
  }

  /** Adding Jane Doe to the seed store gives five members, the new one pending with 0. */
  lemma AddJaneScenario(today: string)
    ensures var r := AppendMember(Seed(), MemberData("Jane Doe", "+254700000000"), today);
      |r| == 5 && r[4].id == 5 && r[4].status == Pending && r[4].contribution == 0
      && TotalContributions(r) == 13000 && PendingMembers(r) == 2
  {
    SeedFigures();
    AddMemberAggregates(Seed(), MemberData("Jane Doe", "+254700000000"), today);
  }

  // ---------------------------------------------------------------------------
  // The page's state

  /** The page component's state: the member store and whether the add dialog is open. */
  class ChamaPage {
    var members: seq<Member>
    var isAddMemberOpen: bool
    const contributionGoal: int

    /** No member is ever deleted and each new id is the old length plus one. */
    ghost predicate Valid()
      reads this
    {
      SequentialIds(members)
    }

    constructor ()
      ensures Valid()
      ensures members == Seed() && !isAddMemberOpen && contributionGoal == ContributionGoal
    {
      members := Seed();
      isAddMemberOpen := false;
      contributionGoal := ContributionGoal;
    }

    /** `handleAddMember`: appends the new member. */
    method HandleAddMember(data: MemberData, today: string)
      requires Valid()
      modifies this`members
      ensures Valid()
      ensures members == AppendMember(old(members), data, today)
    {
      AddMemberKeepsSequentialIds(members, data, today);
      members := members + [NewMember(|members| + 1, data, today)];
    }

    /** `handleSendReminders`: how many members the reminder goes to. */
    method HandleSendReminders() returns (reminded: nat)
      ensures reminded == PendingMembers(members) + OverdueMembers(members)
    {
      var unpaid := UnpaidMembers(members);
      ReminderCount(members);
      reminded := |unpaid|;
    }

    /** The member list's "Mark as Paid" button, written back through `setMembers`. */
    method MarkAsPaid(memberId: int, amountInput: string, today: string)
      requires Valid()
      modifies this`members
      ensures Valid()
      ensures members == MemberList.MarkAsPaid(old(members), memberId, amountInput, today)
    {
      UpdateKeepsSequentialIds(members, memberId, Paid, Some(AmountFromInput(amountInput)), today);
      members := MemberList.MarkAsPaid(members, memberId, amountInput, today);
    }

    /** The member list's "Mark Pending" button, written back through `setMembers`. */
    method MarkPending(memberId: int, today: string)
      requires Valid()
      modifies this`members
      ensures Valid()
      ensures members == MemberList.MarkPending(old(members), memberId, today)
    {
      UpdateKeepsSequentialIds(members, memberId, Pending, None, today);
      members := MemberList.MarkPending(members, memberId, today);
    }

    /** The header's "Add Member" button. */
    method OpenAddMember()
      modifies this`isAddMemberOpen
      ensures isAddMemberOpen
    {
      isAddMemberOpen := true;
    }

    /** The dialog's `onClose`. */
    method CloseAddMember()
      modifies this`isAddMemberOpen
      ensures !isAddMemberOpen
    {
      isAddMemberOpen := false;
    }

    /**
     * Submitting the add-member dialog: on valid input the trimmed pair is added to the
     * store once, the form is cleared and the dialog closed; otherwise nothing changes.
     */
    method SubmitAddMember(form: AddMemberForm, today: string) returns (added: bool)
      requires Valid()
      modifies this, form
      ensures Valid()
      ensures added <==> Submission(old(form.name), old(form.phone)).Some?
      ensures added ==>
        && members == AppendMember(old(members), Submission(old(form.name), old(form.phone)).value, today)
        && !isAddMemberOpen && form.name == "" && form.phone == ""
      ensures !added ==>
        && members == old(members) && isAddMemberOpen == old(isAddMemberOpen)
        && form.name == old(form.name) && form.phone == old(form.phone)
    {
      var sent := form.HandleSubmit();
      added := sent.Some?;
      if added {
        HandleAddMember(sent.value, today);
        CloseAddMember();
      }
    }
  }
}
