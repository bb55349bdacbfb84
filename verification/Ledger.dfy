/** `LedgerCoreService`: double-entry journals.  A journal is checked on its exact amounts, in paise,
    and stored in rows of two decimals of a rupee. */
module Ledger {
  import opened Money

  datatype Account =
    | GatewayClearing
    | VendorPayable
    | PlatformCommissionRevenue
    | TaxGstLiability
    | CustomerDepositEscrow

  datatype Side = Debit | Credit

  datatype Line = Line(account: Account, side: Side, amount: real)

  /** Idempotency keys of the journals this engine posts. */
  datatype Key =
    | PayVerify(bookingId: int)
    | Confirmed(bookingId: int)
    | RefundIntent(bookingId: int)
    | ExtensionVerify(extensionId: int)

  datatype Journal = Journal(key: Key, lines: seq<Line>)

  datatype Outcome = Recorded | Duplicate | TooFewLines | NonPositiveAmount | Unbalanced

  // ---------------------------------------------- stored rows

  function StoredLine(l: Line): Line {
    Line(l.account, l.side, HalfAway(l.amount) as real)
  }

  /** Lines as the amount column keeps them: every row rounded to two decimals on its own. */
  function Stored(lines: seq<Line>): seq<Line> {
    if lines == [] then [] else [StoredLine(lines[0])] + Stored(lines[1..])
  }

  lemma {:induction false} StoredConcat(a: seq<Line>, b: seq<Line>)
    ensures Stored(a + b) == Stored(a) + Stored(b)
  {
    if a == [] {
      assert a + b == b;
    } else {
      assert (a + b)[1..] == a[1..] + b;
      StoredConcat(a[1..], b);
    }
  }

  lemma StoredOne(l: Line)
    ensures Stored([l]) == [StoredLine(l)]
  {
    assert [l][1..] == [];
  }

  // ---------------------------------------------- sums

  ghost function Total(lines: seq<Line>, side: Side): real {
    if lines == [] then 0.0
    else (if lines[0].side == side then lines[0].amount else 0.0) + Total(lines[1..], side)
  }

  ghost function Posted(lines: seq<Line>, account: Account, side: Side): real {
    if lines == [] then 0.0
    else (if lines[0].account == account && lines[0].side == side then lines[0].amount else 0.0)
         + Posted(lines[1..], account, side)
  }

  /** Clearing is an asset: debits minus credits.  Everything else: credits minus debits. */
  ghost function Balance(lines: seq<Line>, account: Account): real {
    if account == GatewayClearing
    then Posted(lines, account, Debit) - Posted(lines, account, Credit)
    else Posted(lines, account, Credit) - Posted(lines, account, Debit)
  }

  ghost predicate Positive(lines: seq<Line>) {
    forall l :: l in lines ==> l.amount > 0.0
  }

  ghost predicate Balanced(lines: seq<Line>) {
    Total(lines, Debit) == Total(lines, Credit)
  }

  /** What `recordJournal` lets into the books. */
  ghost predicate Acceptable(lines: seq<Line>) {
    |lines| >= 2 && Positive(lines) && Balanced(lines)
  }

  ghost predicate HasKey(journals: seq<Journal>, key: Key) {
    exists i :: 0 <= i < |journals| && journals[i].key == key
  }

  ghost predicate Sound(journals: seq<Journal>) {
    && (forall i :: 0 <= i < |journals| ==> Acceptable(journals[i].lines))
    && (forall i, j :: 0 <= i < j < |journals| ==> journals[i].key != journals[j].key)
  }

  ghost function Entries(journals: seq<Journal>): seq<Line> {
    if journals == [] then [] else journals[0].lines + Entries(journals[1..])
  }

  lemma {:induction false} TotalConcat(a: seq<Line>, b: seq<Line>, side: Side)
    ensures Total(a + b, side) == Total(a, side) + Total(b, side)
  {
    if a == [] {
      assert a + b == b;
    } else {
      assert (a + b)[1..] == a[1..] + b;
      TotalConcat(a[1..], b, side);
    }
  }

  lemma {:induction false} PostedConcat(a: seq<Line>, b: seq<Line>, account: Account, side: Side)
    ensures Posted(a + b, account, side) == Posted(a, account, side) + Posted(b, account, side)
  {
    if a == [] {
      assert a + b == b;
    } else {
      assert (a + b)[1..] == a[1..] + b;
      PostedConcat(a[1..], b, account, side);
    }
  }

  lemma BalanceConcat(a: seq<Line>, b: seq<Line>, account: Account)
    ensures Balance(a + b, account) == Balance(a, account) + Balance(b, account)
  {
    PostedConcat(a, b, account, Debit);
    PostedConcat(a, b, account, Credit);
  }

  /** Every line is posted to exactly one account. */
  lemma {:induction false} TotalIsSumOfAccounts(lines: seq<Line>, side: Side)
    ensures Total(lines, side)
         == Posted(lines, GatewayClearing, side) + Posted(lines, VendorPayable, side)
          + Posted(lines, PlatformCommissionRevenue, side) + Posted(lines, TaxGstLiability, side)
          + Posted(lines, CustomerDepositEscrow, side)
  {
    if lines != [] {
      TotalIsSumOfAccounts(lines[1..], side);
    }
  }

  lemma {:induction false} SoundBooksBalance(journals: seq<Journal>)
    requires Sound(journals)
    ensures Balanced(Entries(journals))
  {
    if journals != [] {
      assert forall i :: 0 <= i < |journals| - 1 ==> journals[1..][i] == journals[i + 1];
      SoundBooksBalance(journals[1..]);
      TotalConcat(journals[0].lines, Entries(journals[1..]), Debit);
      TotalConcat(journals[0].lines, Entries(journals[1..]), Credit);
    }
  }

  /** The exact trial balance: clearing is what is owed to vendors, tax and customers plus what the
      platform earned. */
  ghost predicate InTrialBalance(rows: seq<Line>) {
    Balance(rows, GatewayClearing) == Balance(rows, VendorPayable) + Balance(rows, PlatformCommissionRevenue)
                                    + Balance(rows, TaxGstLiability) + Balance(rows, CustomerDepositEscrow)
  }

  /** What is in clearing beyond that is what was debited beyond what was credited. */
  lemma ClearingSurplus(rows: seq<Line>)
    ensures Balance(rows, GatewayClearing)
         == Balance(rows, VendorPayable) + Balance(rows, PlatformCommissionRevenue)
          + Balance(rows, TaxGstLiability) + Balance(rows, CustomerDepositEscrow)
          + (Total(rows, Debit) - Total(rows, Credit))
  {
    TotalIsSumOfAccounts(rows, Debit);
    TotalIsSumOfAccounts(rows, Credit);
  }

  lemma ExactTrialBalance(journals: seq<Journal>)
    requires Sound(journals)
    ensures InTrialBalance(Entries(journals))
  {
    SoundBooksBalance(journals);
    ClearingSurplus(Entries(journals));
  }

  /** By how much the rows of a journal miss the balance its lines had. */
  ghost function Miss(lines: seq<Line>): real {
    Total(Stored(lines), Debit) - Total(Stored(lines), Credit)
  }

  ghost function Misses(journals: seq<Journal>): real {
    if journals == [] then 0.0 else Miss(journals[0].lines) + Misses(journals[1..])
  }

  lemma {:induction false} MissesAddUp(journals: seq<Journal>)
    ensures Miss(Entries(journals)) == Misses(journals)
  {
    if journals != [] {
      MissesAddUp(journals[1..]);
      StoredConcat(journals[0].lines, Entries(journals[1..]));
      TotalConcat(Stored(journals[0].lines), Stored(Entries(journals[1..])), Debit);
      TotalConcat(Stored(journals[0].lines), Stored(Entries(journals[1..])), Credit);
    }
  }

  /** The trial balance of the stored rows: clearing is off by exactly what the rounded journals miss
      together, so it is right exactly when their misses cancel out. */
  lemma TrialBalance(journals: seq<Journal>)
    ensures InTrialBalance(Stored(Entries(journals))) <==> Misses(journals) == 0.0
    ensures var e := Stored(Entries(journals));
            Balance(e, GatewayClearing) == Balance(e, VendorPayable) + Balance(e, PlatformCommissionRevenue)
                                         + Balance(e, TaxGstLiability) + Balance(e, CustomerDepositEscrow) + Misses(journals)
  {
    MissesAddUp(journals);
    ClearingSurplus(Stored(Entries(journals)));
  }

  lemma {:induction false} EntriesAppend(journals: seq<Journal>, j: Journal)
    ensures Entries(journals + [j]) == Entries(journals) + j.lines
  {
    if journals == [] {
      assert [j][1..] == [];
    } else {
      assert (journals + [j])[1..] == journals[1..] + [j];
      EntriesAppend(journals[1..], j);
    }
  }

  /** The journals as they were accepted, and the rows that were stored for them. */
  class Books {
    var journals: seq<Journal>
    var rows: seq<Line>

    ghost predicate Valid()
      reads this
    {
      Sound(journals) && rows == Stored(Entries(journals))
    }

    constructor ()
      ensures Valid() && journals == [] && rows == []
    {
      journals, rows := [], [];
    }

    /** The check order is: number of lines, idempotency key, amounts, balance. */
    method RecordJournal(key: Key, lines: seq<Line>) returns (outcome: Outcome)
      requires Valid()
      modifies this
      ensures Valid()
      ensures outcome == Recorded <==> !HasKey(old(journals), key) && Acceptable(lines)
      ensures outcome == Duplicate <==> |lines| >= 2 && HasKey(old(journals), key)
      ensures outcome == TooFewLines <==> |lines| < 2
      ensures outcome == Unbalanced <==>
        |lines| >= 2 && !HasKey(old(journals), key) && Positive(lines) && !Balanced(lines)
      ensures journals == if outcome == Recorded then old(journals) + [Journal(key, lines)] else old(journals)
    {
      if |lines| < 2 {
        return TooFewLines;
      }
      var i := 0;
      while i < |journals|
        invariant 0 <= i <= |journals|
        invariant forall k :: 0 <= k < i ==> journals[k].key != key
      {
        if journals[i].key == key {
          return Duplicate;
        }
        i := i + 1;
      }
      var totalDebit, totalCredit := 0.0, 0.0;
      i := 0;
      while i < |lines|
        invariant 0 <= i <= |lines|
        invariant forall k :: 0 <= k < i ==> lines[k].amount > 0.0
        invariant Total(lines, Debit) == totalDebit + Total(lines[i..], Debit)
        invariant Total(lines, Credit) == totalCredit + Total(lines[i..], Credit)
      {
        if lines[i].amount <= 0.0 {
          return NonPositiveAmount;
        }
        assert lines[i..][1..] == lines[i + 1..];
        if lines[i].side == Debit {
          totalDebit := totalDebit + lines[i].amount;
        } else {
          totalCredit := totalCredit + lines[i].amount;
        }
        i := i + 1;
      }
      if totalDebit != totalCredit {
        return Unbalanced;
      }
      EntriesAppend(journals, Journal(key, lines));
      StoredConcat(Entries(journals), lines);
      journals := journals + [Journal(key, lines)];
      rows := rows + Stored(lines);
      return Recorded;
    }

    /** `getAccountBalance`: the stored, rounded amounts are summed. */
    method GetAccountBalance(account: Account) returns (balance: real)
      ensures balance == Balance(rows, account)
      ensures Valid() ==> balance == Balance(Stored(Entries(journals)), account)
    {
      var debits, credits := SumLines(rows, account);
      balance := if account == GatewayClearing then debits - credits else credits - debits;
    }
  }

  method SumLines(lines: seq<Line>, account: Account) returns (debits: real, credits: real)
    ensures debits == Posted(lines, account, Debit)
    ensures credits == Posted(lines, account, Credit)
  {
    debits, credits := 0.0, 0.0;
    var i := 0;
    while i < |lines|
      invariant 0 <= i <= |lines|
      invariant Posted(lines, account, Debit) == debits + Posted(lines[i..], account, Debit)
      invariant Posted(lines, account, Credit) == credits + Posted(lines[i..], account, Credit)
    {
      assert lines[i..][1..] == lines[i + 1..];
      if lines[i].account == account {
        if lines[i].side == Debit {
          debits := debits + lines[i].amount;
        } else {
          credits := credits + lines[i].amount;
        }
      }
      i := i + 1;
    }
  }
}
