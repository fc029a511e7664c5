/**
 * The member list component: the `Member` record, the search filter, the status colour,
 * and `updatePaymentStatus`, which rebuilds the store with one record replaced, together
 * with its two call sites ("Mark as Paid" and "Mark Pending").
 */
module MemberList {
  import opened Wrappers
  import opened JsStrings

  datatype Status = Paid | Pending | Overdue

  /** One member of the chama.  `lastPayment` is an ISO `YYYY-MM-DD` date string. */
  datatype Member = Member(
    id: int,
    name: string,
    phone: string,
    contribution: int,
    status: Status,
    lastPayment: string)

  /** The string the source stores in the `status` field. */
  function StatusName(s: Status): string {
    match s
    case Paid => "paid"
    case Pending => "pending"
    case Overdue => "overdue"
  }

  const DefaultColor := "bg-gray-100 text-gray-800"

  /** `getStatusColor`: the badge classes for a status string, grey for anything unknown. */
  function StatusColor(status: string): (r: string)
    ensures r == DefaultColor <==> status != "paid" && status != "pending" && status != "overdue"
  {
    if status == "paid" then "bg-green-100 text-green-800 hover:bg-green-200"
    else if status == "pending" then "bg-amber-100 text-amber-800 hover:bg-amber-200"
    else if status == "overdue" then "bg-red-100 text-red-800 hover:bg-red-200"
    else DefaultColor
  }

  /** Every status a member can have gets its own colour, never the fallback one. */
  lemma StatusColorsDistinct(s: Status, s': Status)
    ensures StatusColor(StatusName(s)) != DefaultColor
    ensures s != s' ==> StatusColor(StatusName(s)) != StatusColor(StatusName(s'))
  {
  }

  /** The search predicate: the lower-cased name contains the lower-cased term, or the
      phone contains the term as typed (phone matching is not case-folded). */
  predicate MatchesSearch(m: Member, term: string)
    ensures term == [] ==> MatchesSearch(m, term)
    ensures MatchesSearch(m, term) ==> |term| <= |m.name| || |term| <= |m.phone|
  {
    Includes(ToLowerAscii(m.name), ToLowerAscii(term)) || Includes(m.phone, term)
  }

  /** `filteredMembers`: the members matching `term`, in store order. */
  function FilteredMembers(members: seq<Member>, term: string): (r: seq<Member>)
    ensures |r| <= |members|
    ensures forall m :: m in r <==> m in members && MatchesSearch(m, term)
  {
    if members == [] then []
    else
      var rest := FilteredMembers(members[1..], term);
      assert forall m :: m in members <==> m == members[0] || m in members[1..];
      if MatchesSearch(members[0], term) then [members[0]] + rest else rest
  }

  /** `xs` is `ys` with some elements dropped and the rest kept in order. */
  predicate IsSubsequence<T(==)>(xs: seq<T>, ys: seq<T>)
    decreases |ys|
  {
    if xs == [] then true
    else if ys == [] then false
    else (xs[0] == ys[0] && IsSubsequence(xs[1..], ys[1..])) || IsSubsequence(xs, ys[1..])
  }

  /** The filter only drops members; it never reorders or duplicates them. */
  lemma {:induction false} FilteredIsSubsequence(members: seq<Member>, term: string)
    ensures IsSubsequence(FilteredMembers(members, term), members)
  {
    if members != [] {
      FilteredIsSubsequence(members[1..], term);
      var rest := FilteredMembers(members[1..], term);
      if MatchesSearch(members[0], term) {
        assert ([members[0]] + rest)[1..] == rest;
      } else if rest != [] {
        assert IsSubsequence(rest, members[1..]);
      }
    }
  }

  /** An empty search shows the whole store, unchanged and in order. */
  lemma {:induction false} FilterEmptyTerm(members: seq<Member>)
    ensures FilteredMembers(members, "") == members
  {
    if members != [] {
      FilterEmptyTerm(members[1..]);
      assert Includes(members[0].phone, "");
      assert [members[0]] + members[1..] == members;
    }
  }

  /** The search is case-insensitive on names: "MARY" finds "Mary Wanjiku". */
  lemma SearchIgnoresNameCase()
    ensures MatchesSearch(Member(1, "Mary Wanjiku", "+254712345678", 5000, Paid, "2024-07-01"), "MARY")
  {
    assert ToLowerAscii("MARY") <= ToLowerAscii("Mary Wanjiku");
  }

  /**
   * The name search ignores ASCII case for every member and every term: when the term
   * agrees with some stretch of the name letter by letter up to case, the member matches.
   */
  lemma NameSearchCaseInsensitive(m: Member, term: string, i: int)
    requires 0 <= i && i + |term| <= |m.name|
    requires forall j :: 0 <= j < |term| ==> LowerAscii(term[j]) == LowerAscii(m.name[i + j])
    ensures MatchesSearch(m, term)
  {
    var name, t := ToLowerAscii(m.name), ToLowerAscii(term);
    assert name[i..i + |t|] == t by {
      forall j | 0 <= j < |t| ensures name[i..i + |t|][j] == t[j] {
        assert name[i + j] == LowerAscii(m.name[i + j]);
      }
    }
    OccursIncludes(name, t, i);
  }

  /** The record `updatePaymentStatus` puts in place of a matching member. */
  function PaymentUpdated(m: Member, newStatus: Status, amount: Option<int>, today: string): (r: Member)
    ensures r.id == m.id && r.name == m.name && r.phone == m.phone
    ensures r.status == newStatus && r.lastPayment == today
    ensures amount.None? ==> r.contribution == m.contribution
    ensures amount.Some? ==> r.contribution == amount.value
  {
    m.(status := newStatus, contribution := amount.GetOr(m.contribution), lastPayment := today)
  }

  /**
   * `updatePaymentStatus`: the store rebuilt by `map`, every member whose id is `memberId`
   * given the new status, the amount when one is supplied (its old contribution otherwise)
   * and today's date; every other member kept as it was.
   */
  function UpdatePaymentStatus(members: seq<Member>, memberId: int, newStatus: Status,
                               amount: Option<int>, today: string): (r: seq<Member>)
    ensures |r| == |members|
    ensures forall i :: 0 <= i < |members| && members[i].id != memberId ==> r[i] == members[i]
    ensures forall i :: 0 <= i < |members| && members[i].id == memberId ==>
      && r[i].id == members[i].id && r[i].name == members[i].name && r[i].phone == members[i].phone
      && r[i].status == newStatus && r[i].lastPayment == today
      && r[i].contribution == (if amount.Some? then amount.value else members[i].contribution)
  {
    seq(|members|, i requires 0 <= i < |members| =>
      if members[i].id == memberId then PaymentUpdated(members[i], newStatus, amount, today)
      else members[i])
  }

  /** An id that no member has leaves the store exactly as it was. */
  lemma UpdateUnknownId(members: seq<Member>, memberId: int, newStatus: Status,
                        amount: Option<int>, today: string)
    requires forall i :: 0 <= i < |members| ==> members[i].id != memberId
    ensures UpdatePaymentStatus(members, memberId, newStatus, amount, today) == members
  {
  }

  /** Applying the same update twice on the same day is the same as applying it once. */
  lemma UpdateIdempotent(members: seq<Member>, memberId: int, newStatus: Status,
                         amount: Option<int>, today: string)
    ensures var once := UpdatePaymentStatus(members, memberId, newStatus, amount, today);
            UpdatePaymentStatus(once, memberId, newStatus, amount, today) == once
  {
  }

  /** The amount "Mark as Paid" reads from its input: `parseInt(value) || 0`, so text
      with no leading digits records 0 and a negative number is passed on as it is. */
  function AmountFromInput(value: string): (r: int)
    ensures ParseInt(value).None? ==> r == 0
  {
    match ParseInt(value)
    case None => 0
    case Some(n) => n
  }

  /** Any integer typed into the amount box, negative ones included, is recorded as typed. */
  lemma AmountFromDecimal(n: int)
    ensures AmountFromInput(IntToDecimal(n)) == n
  {
    ParseIntDecimal(n);
  }

  /** An empty amount box records 0. */
  lemma AmountFromEmpty()
    ensures AmountFromInput("") == 0
  {
  }

  /** "Mark as Paid": status paid, the amount read from the member's input box replacing
      the old contribution, and today's date; id, name and phone kept. */
  function MarkAsPaid(members: seq<Member>, memberId: int, amountInput: string, today: string): (r: seq<Member>)
    ensures |r| == |members|
    ensures forall i :: 0 <= i < |members| && members[i].id == memberId ==>
      r[i] == members[i].(status := Paid, contribution := AmountFromInput(amountInput), lastPayment := today)
    ensures forall i :: 0 <= i < |members| && members[i].id != memberId ==> r[i] == members[i]
  {
    UpdatePaymentStatus(members, memberId, Paid, Some(AmountFromInput(amountInput)), today)
  }

  /** "Mark Pending": status pending and today's date, no amount, so every contribution
      stays as it was. */
  function MarkPending(members: seq<Member>, memberId: int, today: string): (r: seq<Member>)
    ensures |r| == |members|
    ensures forall i :: 0 <= i < |members| ==> r[i].contribution == members[i].contribution
    ensures forall i :: 0 <= i < |members| && members[i].id == memberId ==>
      r[i] == members[i].(status := Pending, lastPayment := today)
    ensures forall i :: 0 <= i < |members| && members[i].id != memberId ==> r[i] == members[i]
  {
    UpdatePaymentStatus(members, memberId, Pending, None, today)
  }
}
