/** The after-hours netting of subscriptions against redemptions, account by account. */
module Netting {
  import opened Common
  import opened Lifecycle

  datatype Transfer = Transfer(direction: Direction, amount: int)

  datatype NetRecord = NetRecord(id: nat, fundAccount: string, direction: Kind, amount: int, transfers: seq<Transfer>)

  /** The figures of one account, updated in place. */
  class AccountAmount {
    var subscriptionAmount: int
    var redemptionAmount: int
    var netAmount: int

    constructor ()
      ensures subscriptionAmount == 0 && redemptionAmount == 0 && netAmount == 0
    {
      subscriptionAmount, redemptionAmount, netAmount := 0, 0, 0;
    }
  }

  // ---- what the figures mean -----------------------------------------------------

  function Incoming(transfers: seq<Transfer>): seq<Transfer> {
    Filter(transfers, (t: Transfer) => t.direction == IN)
  }

  function SumOf(transfers: seq<Transfer>): int {
    if transfers == [] then 0 else SumOf(transfers[..|transfers| - 1]) + transfers[|transfers| - 1].amount
  }

  /** A subscription without an incoming transfer is left out. */
  predicate Skipped(r: NetRecord) {
    r.direction == SUBSCRIPTION && Incoming(r.transfers) == []
  }

  function Subscribed(r: NetRecord, account: string): int {
    if r.fundAccount == account && r.direction == SUBSCRIPTION then SumOf(Incoming(r.transfers)) else 0
  }

  function Redeemed(r: NetRecord, account: string): int {
    if r.fundAccount == account && r.direction == REDEMPTION then r.amount else 0
  }

  function Total<T>(items: seq<T>, part: T -> int): int {
    if items == [] then 0 else Total(items[..|items| - 1], part) + part(items[|items| - 1])
  }

  function TotalSubscribed(records: seq<NetRecord>, account: string): int {
    Total(records, (r: NetRecord) => Subscribed(r, account))
  }

  function TotalRedeemed(records: seq<NetRecord>, account: string): int {
    Total(records, (r: NetRecord) => Redeemed(r, account))
  }

  /** The account has a record that was not skipped. */
  ghost predicate Present(records: seq<NetRecord>, account: string) {
    exists r :: r in records && r.fundAccount == account && !Skipped(r)
  }

  // ---- which transfers count -------------------------------------------------------

  /** A subscription that nothing was paid in for. */
  predicate NothingIn(r: NetRecord) {
    r.direction == SUBSCRIPTION && forall t :: t in r.transfers ==> t.direction == OUT
  }

  /** What was paid in for an account's subscription. */
  function PaidIn(r: NetRecord, account: string): int {
    if r.fundAccount == account && r.direction == SUBSCRIPTION
    then Total(r.transfers, (t: Transfer) => match t.direction case IN => t.amount case OUT => 0)
    else 0
  }

  function PaidOut(r: NetRecord, account: string): int {
    if r.fundAccount == account && r.direction != SUBSCRIPTION then r.amount else 0
  }

  /** The account has a redemption, or a subscription that something was paid in for. */
  ghost predicate HasMoney(records: seq<NetRecord>, account: string) {
    exists r :: r in records && r.fundAccount == account
                && (r.direction == REDEMPTION || exists t :: t in r.transfers && t.direction == IN)
  }

  lemma {:induction false} IncomingSum(transfers: seq<Transfer>)
    ensures SumOf(Incoming(transfers))
            == Total(transfers, (t: Transfer) => match t.direction case IN => t.amount case OUT => 0)
    decreases transfers
  {
    if transfers != [] {
      var before, last := transfers[..|transfers| - 1], transfers[|transfers| - 1];
      IncomingSum(before);
      assert transfers == before + [last] && [last][1..] == [];
      FilterAppend(before, [last], (t: Transfer) => t.direction == IN);
      var kept := Incoming(before);
      assert (kept + [last])[..|kept|] == kept && kept + [] == kept;
    }
  }

  lemma SkippedIsNothingIn(r: NetRecord)
    ensures Skipped(r) <==> NothingIn(r)
  {
    forall t: Transfer
      ensures t in Incoming(r.transfers) <==> t in r.transfers && t.direction == IN
    {
      InFilter(r.transfers, (x: Transfer) => x.direction == IN, t);
    }
    FirstIsMember(Incoming(r.transfers));
  }

  lemma {:induction false} TotalSame(records: seq<NetRecord>, part: NetRecord -> int, other: NetRecord -> int)
    requires forall r :: part(r) == other(r)
    ensures Total(records, part) == Total(records, other)
    decreases records
  {
    if records != [] {
      TotalSame(records[..|records| - 1], part, other);
    }
  }

  /** The figures are what was paid in, and the redemptions; an account is listed when it has either. */
  lemma FiguresExactly(records: seq<NetRecord>, account: string)
    ensures TotalSubscribed(records, account) == Total(records, (r: NetRecord) => PaidIn(r, account))
    ensures TotalRedeemed(records, account) == Total(records, (r: NetRecord) => PaidOut(r, account))
    ensures Present(records, account) <==> HasMoney(records, account)
  {
    hide Incoming, SumOf, Skipped;
    forall r: NetRecord
      ensures Subscribed(r, account) == PaidIn(r, account) && (Skipped(r) <==> NothingIn(r))
    {
      IncomingSum(r.transfers);
      SkippedIsNothingIn(r);
    }
    TotalSame(records, (r: NetRecord) => Subscribed(r, account), (r: NetRecord) => PaidIn(r, account));
    TotalSame(records, (r: NetRecord) => Redeemed(r, account), (r: NetRecord) => PaidOut(r, account));
  }

  /** The ids are those of the records at some places, in order: the places of the subscriptions without money. */
  ghost predicate IdsAt(ids: seq<nat>, records: seq<NetRecord>, at: seq<nat>) {
    && |ids| == |at| && (forall p, q :: 0 <= p < q < |at| ==> at[p] < at[q])
    && (forall p :: 0 <= p < |at| ==> at[p] < |records| && NothingIn(records[at[p]]) && ids[p] == records[at[p]].id)
    && forall i :: 0 <= i < |records| && NothingIn(records[i]) ==> i in at
  }

  lemma OneMoreAt(ids: seq<nat>, records: seq<NetRecord>, at: seq<nat>, r: NetRecord)
    requires IdsAt(ids, records, at)
    ensures if NothingIn(r) then IdsAt(ids + [r.id], records + [r], at + [|records|])
            else IdsAt(ids, records + [r], at)
  {
    var more := records + [r];
    assert forall i :: 0 <= i < |records| ==> more[i] == records[i];
    forall i | 0 <= i < |more| && NothingIn(more[i])
      ensures i in at + [|records|] && (i < |records| ==> i in at)
    {
      if i == |records| {
        assert (at + [|records|])[|at|] == i;
      }
    }
  }

  // ---- order does not matter -----------------------------------------------------

  lemma {:induction false} TotalAppend(a: seq<NetRecord>, b: seq<NetRecord>, part: NetRecord -> int)
    ensures Total(a + b, part) == Total(a, part) + Total(b, part)
    decreases |b|
  {
    if b == [] {
      assert a + b == a;
    } else {
      assert (a + b)[..|a + b| - 1] == a + b[..|b| - 1];
      TotalAppend(a, b[..|b| - 1], part);
    }
  }

  lemma TotalOfOne(r: NetRecord, part: NetRecord -> int)
    ensures Total([r], part) == part(r)
  {
    assert [r][..0] == [];
  }

  lemma TotalWithout(records: seq<NetRecord>, i: nat, part: NetRecord -> int)
    requires i < |records|
    ensures Total(records, part) == part(records[i]) + Total(records[..i] + records[i + 1..], part)
  {
    hide Total;
    assert records == records[..i] + ([records[i]] + records[i + 1..]);
    TotalAppend(records[..i], [records[i]] + records[i + 1..], part);
    TotalAppend([records[i]], records[i + 1..], part);
    TotalAppend(records[..i], records[i + 1..], part);
    TotalOfOne(records[i], part);
  }

  lemma ContentWithout(records: seq<NetRecord>, i: nat)
    requires i < |records|
    ensures multiset(records[..i] + records[i + 1..]) == multiset(records) - multiset{records[i]}
  {
    assert records == records[..i] + ([records[i]] + records[i + 1..]);
  }

  /** Any order of the same records gives the same totals. */
  lemma {:induction false} TotalOfPermutation(a: seq<NetRecord>, b: seq<NetRecord>, part: NetRecord -> int)
    requires multiset(a) == multiset(b)
    ensures Total(a, part) == Total(b, part)
    decreases |a|
  {
    if a == [] {
      assert |multiset(b)| == 0;
      assert b == [];
    } else {
      var x := a[|a| - 1];
      assert x in multiset(b);
      var i :| 0 <= i < |b| && b[i] == x;
      TotalWithout(a, |a| - 1, part);
      TotalWithout(b, i, part);
      ContentWithout(a, |a| - 1);
      ContentWithout(b, i);
      assert a[..|a| - 1] + a[|a| - 1 + 1..] == a[..|a| - 1];
      TotalOfPermutation(a[..|a| - 1], b[..i] + b[i + 1..], part);
    }
  }

  /** The netted figures and the accounts listed do not depend on the order of the records. */
  lemma NettingIgnoresOrder(a: seq<NetRecord>, b: seq<NetRecord>, account: string)
    requires multiset(a) == multiset(b)
    ensures TotalSubscribed(a, account) == TotalSubscribed(b, account)
    ensures TotalRedeemed(a, account) == TotalRedeemed(b, account)
    ensures Present(a, account) <==> Present(b, account)
  {
    TotalOfPermutation(a, b, (r: NetRecord) => Subscribed(r, account));
    TotalOfPermutation(a, b, (r: NetRecord) => Redeemed(r, account));
    assert forall r :: r in a <==> r in multiset(a);
    assert forall r :: r in b <==> r in multiset(b);
  }

  /** A skipped subscription adds nothing to any account. */
  lemma SkippedAddsNothing(r: NetRecord, account: string)
    requires Skipped(r)
    ensures Subscribed(r, account) == 0 && Redeemed(r, account) == 0
  {
  }

  // ---- the code --------------------------------------------------------------------

  method Reduce(transfers: seq<Transfer>) returns (sum: int)
    ensures sum == SumOf(transfers)
  {
    sum := 0;
    for i := 0 to |transfers|
      invariant sum == SumOf(transfers[..i])
    {
      assert transfers[..i + 1][..i] == transfers[..i];
      sum := sum + transfers[i].amount;
    }
    assert transfers[..|transfers|] == transfers;
  }

  /** Different accounts have different objects. */
  ghost predicate Separate(m: map<string, AccountAmount>) {
    forall a, c :: a in m && c in m && m[a] == m[c] ==> a == c
  }

  /** An account's object holds its figures over some records. */
  ghost predicate Holds(m: map<string, AccountAmount>, records: seq<NetRecord>, account: string)
    requires account in m
    reads m[account]
  {
    && m[account].subscriptionAmount == TotalSubscribed(records, account)
    && m[account].redemptionAmount == TotalRedeemed(records, account)
    && m[account].netAmount == TotalSubscribed(records, account) - TotalRedeemed(records, account)
  }

  lemma TotalsOfOneMore(records: seq<NetRecord>, r: NetRecord, account: string)
    ensures TotalSubscribed(records + [r], account) == TotalSubscribed(records, account) + Subscribed(r, account)
    ensures TotalRedeemed(records + [r], account) == TotalRedeemed(records, account) + Redeemed(r, account)
    ensures Present(records + [r], account) <==> Present(records, account) || (r.fundAccount == account && !Skipped(r))
  {
    assert (records + [r])[..|records|] == records;
    assert forall x :: x in records + [r] <==> x in records || x == r;
    assert r in records + [r];
  }

  /** An account without a kept record has no figures yet. */
  lemma {:induction false} AbsentTotals(records: seq<NetRecord>, account: string)
    requires !Present(records, account)
    ensures TotalSubscribed(records, account) == 0 && TotalRedeemed(records, account) == 0
  {
    if records != [] {
      var before, r := records[..|records| - 1], records[|records| - 1];
      assert records == before + [r];
      TotalsOfOneMore(before, r, account);
      AbsentTotals(before, account);
    }
  }

  /** One record is added to the figures of its account, unless it is skipped. */
  method AddRecord(figures: AccountAmount, record: NetRecord) returns (kept: bool)
    modifies figures
    ensures kept == !NothingIn(record)
    ensures figures.subscriptionAmount == old(figures.subscriptionAmount) + PaidIn(record, record.fundAccount)
    ensures figures.redemptionAmount == old(figures.redemptionAmount) + PaidOut(record, record.fundAccount)
    ensures figures.netAmount == old(figures.netAmount) + PaidIn(record, record.fundAccount)
                                 - PaidOut(record, record.fundAccount)
  {
    IncomingSum(record.transfers);
    SkippedIsNothingIn(record);
    if record.direction == SUBSCRIPTION {
      var matched := Incoming(record.transfers);
      if |matched| == 0 {
        return false;
      }
      var amount := Reduce(matched);
      figures.subscriptionAmount := figures.subscriptionAmount + amount;
      figures.netAmount := figures.netAmount + amount;
    } else {
      figures.redemptionAmount := figures.redemptionAmount + record.amount;
      figures.netAmount := figures.netAmount - record.amount;
    }
    return true;
  }

  lemma AllTotalsOfOneMore(records: seq<NetRecord>, r: NetRecord)
    ensures forall a: string ::
              && TotalSubscribed(records + [r], a) == TotalSubscribed(records, a) + Subscribed(r, a)
              && TotalRedeemed(records + [r], a) == TotalRedeemed(records, a) + Redeemed(r, a)
              && (Present(records + [r], a) <==> Present(records, a) || (r.fundAccount == a && !Skipped(r)))
  {
    forall a: string
      ensures TotalSubscribed(records + [r], a) == TotalSubscribed(records, a) + Subscribed(r, a)
      ensures TotalRedeemed(records + [r], a) == TotalRedeemed(records, a) + Redeemed(r, a)
      ensures Present(records + [r], a) <==> Present(records, a) || (r.fundAccount == a && !Skipped(r))
    {
      TotalsOfOneMore(records, r, a);
    }
  }

  /**
   The whole fold. An account is listed exactly if money came in or goes out for it, with the sums of what was
   paid in for its subscriptions and of its redemptions; `at` has the places of the records that are skipped.
   */
  method Net(records: seq<NetRecord>) returns (m: map<string, AccountAmount>, skipped: seq<nat>, ghost at: seq<nat>)
    ensures forall a :: a in m <==> HasMoney(records, a)
    ensures Separate(m) && forall a :: a in m ==> fresh(m[a])
    ensures forall a :: a in m ==>
              && m[a].subscriptionAmount == Total(records, (r: NetRecord) => PaidIn(r, a))
              && m[a].redemptionAmount == Total(records, (r: NetRecord) => PaidOut(r, a))
              && m[a].netAmount == m[a].subscriptionAmount - m[a].redemptionAmount
    ensures IdsAt(skipped, records, at)
  {
    hide Present, HasMoney, TotalSubscribed, TotalRedeemed, Skipped, PaidIn, PaidOut, NothingIn, IdsAt;
    m, skipped, at := map[], [], [];
    NothingYet();
    for n := 0 to |records|
      invariant forall a :: a in m <==> Present(records[..n], a)
      invariant Separate(m) && forall a :: a in m ==> fresh(m[a])
      invariant forall a :: a in m ==> Holds(m, records[..n], a)
      invariant IdsAt(skipped, records[..n], at)
    {
      var record := records[n];
      assert records[..n + 1] == records[..n] + [record];
      AllTotalsOfOneMore(records[..n], record);
      NotOthers(record);
      PaidIsSubscribed(record);
      OneMoreAt(skipped, records[..n], at, record);
      var figures: AccountAmount;
      if record.fundAccount in m {
        figures := m[record.fundAccount];
      } else {
        AbsentTotals(records[..n], record.fundAccount);
        figures := new AccountAmount();
      }
      var kept := AddRecord(figures, record);
      if !kept {
        SkippedAddsNothing(record, record.fundAccount);
        skipped, at := skipped + [record.id], at + [n];
        continue;
      }
      m := m[record.fundAccount := figures];
    }
    assert records[..|records|] == records;
    forall a: string
      ensures TotalSubscribed(records, a) == Total(records, (r: NetRecord) => PaidIn(r, a))
      ensures TotalRedeemed(records, a) == Total(records, (r: NetRecord) => PaidOut(r, a))
      ensures Present(records, a) <==> HasMoney(records, a)
    {
      FiguresExactly(records, a);
    }
  }

  lemma PaidIsSubscribed(r: NetRecord)
    ensures PaidIn(r, r.fundAccount) == Subscribed(r, r.fundAccount)
    ensures PaidOut(r, r.fundAccount) == Redeemed(r, r.fundAccount) && (Skipped(r) <==> NothingIn(r))
  {
    IncomingSum(r.transfers);
    SkippedIsNothingIn(r);
  }

  lemma NothingYet()
    ensures (forall a :: !Present([], a)) && IdsAt([], [], [])
  {
  }

  lemma NotOthers(r: NetRecord)
    ensures forall a :: a != r.fundAccount ==> Subscribed(r, a) == 0 && Redeemed(r, a) == 0
  {
  }
}
