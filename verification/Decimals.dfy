/** Numbers in event texts: the oracle's reader against an independent writer, and which field of which event each
    callback reads. */
module Decimals {
  import opened Transactions
  import opened OracleSpec
  import L = LedgerSpec
  import H = LedgerHistory

  // ---- Writing ----

  function DigitOf(d: nat): char
    requires d < 10
  {
    ['0', '1', '2', '3', '4', '5', '6', '7', '8', '9'][d]
  }

  /** The decimal numeral of a natural number, without leading zeros. */
  function Numeral(n: nat): string {
    if n < 10 then [DigitOf(n)] else Numeral(n / 10) + [DigitOf(n % 10)]
  }

  /** The decimal text of an integer. */
  function Decimal(n: int): string {
    if n < 0 then "-" + Numeral(-n) else Numeral(n)
  }

  function PowerOfTen(k: nat): nat {
    if k == 0 then 1 else 10 * PowerOfTen(k - 1)
  }

  // ---- Reading ----

  predicate AllDigits(s: string) {
    forall i :: 0 <= i < |s| ==> IsDigit(s[i])
  }

  /** An optional sign and at least one digit. */
  predicate IsNumber(s: string) {
    || (s != "" && AllDigits(s))
    || (|s| > 1 && (s[0] == '-' || s[0] == '+') && AllDigits(s[1..]))
  }

  lemma DigitIsDigit(d: nat)
    requires d < 10
    ensures IsDigit(DigitOf(d)) && DigitOf(d) as int - '0' as int == d
  {
  }

  lemma DigitsSnoc(s: string, ch: char)
    requires AllDigits(s) && IsDigit(ch)
    ensures AllDigits(s + [ch]) && Digits(s + [ch]) == 10 * Digits(s) + (ch as int - '0' as int)
  {
    assert (s + [ch])[..|s|] == s;
  }

  /** Reading undoes writing. */
  lemma {:induction false} ReadsNumeral(n: nat)
    ensures Numeral(n) != "" && AllDigits(Numeral(n)) && Digits(Numeral(n)) == n
  {
    if n < 10 {
      DigitIsDigit(n);
      DigitsSnoc("", DigitOf(n));
      assert "" + [DigitOf(n)] == Numeral(n);
    } else {
      ReadsNumeral(n / 10);
      DigitIsDigit(n % 10);
      DigitsSnoc(Numeral(n / 10), DigitOf(n % 10));
    }
  }

  /** For every integer, negative ones included, the reader gives back what was written. */
  lemma ReadsDecimal(n: int)
    ensures Atoi(Decimal(n)) == n && IsNumber(Decimal(n))
  {
    ReadsNumeral(if n < 0 then -n else n);
    if n < 0 {
      assert ("-" + Numeral(-n))[1..] == Numeral(-n);
    }
  }

  /** The place-value law: digits in front count ten times as much for each digit behind them. */
  lemma {:induction false} PlaceValue(a: string, b: string)
    requires AllDigits(a) && AllDigits(b)
    ensures AllDigits(a + b) && Digits(a + b) == Digits(a) * PowerOfTen(|b|) + Digits(b)
    decreases |b|
  {
    if b == "" {
      assert a + b == a;
    } else {
      var front, last := b[..|b| - 1], b[|b| - 1];
      PlaceValue(a, front);
      DigitsSnoc(a + front, last);
      DigitsSnoc(front, last);
      assert (a + front) + [last] == a + b && front + [last] == b;
      Tenfold(Digits(a), PowerOfTen(|front|));
    }
  }

  lemma Tenfold(x: int, y: int)
    ensures 10 * (x * y) == x * (10 * y)
  {
  }

  /** A sign in front is read as such, and text that is no number reads zero. */
  lemma ReadsSigns(s: string)
    requires s != "" && AllDigits(s)
    ensures Atoi(s) == Digits(s) && Atoi("+" + s) == Digits(s) && Atoi("-" + s) == 0 - Digits(s)
  {
    assert ("+" + s)[1..] == s && ("-" + s)[1..] == s;
    assert IsDigit(s[0]);
  }

  lemma OtherTextReadsZero(s: string)
    requires !IsNumber(s)
    ensures Atoi(s) == 0
  {
    var body := if s != "" && (s[0] == '-' || s[0] == '+') then s[1..] else s;
    if body == "" {
      assert Unsigned(body) == 0;
    } else {
      assert !AllDigits(body);
    }
  }

  // ---- Which field of which event ----

  /** An event whose field `i` is the decimal text of `n`. */
  predicate Carries(v: Value, i: nat, n: int) {
    v.List? && i < |v.items| && v.items[i] == Text(Decimal(n))
  }

  /** Stakes, unstakes and withdrawals of interest read the second field of the last event. */
  lemma LastPairReadsSecondOfLast(values: seq<Value>, n: int)
    requires values != [] && (forall i :: 0 <= i < |values| ==> L.IsPair(values[i]))
    requires Carries(values[|values| - 1], 1, n)
    ensures L.AmountOf(L.StakePLG, Items(values)) == Some(n)
    ensures L.AmountOf(L.UnstakePLG, Items(values)) == Some(n)
    ensures L.AmountOf(L.WithdrawInterest, Items(values)) == Some(n)
  {
    ReadsDecimal(n);
  }

  /** A reinvestment reads the second field of the first event, whatever the others carry. */
  lemma FirstPairReadsSecondOfFirst(values: seq<Value>, n: int)
    requires values != [] && (forall i :: 0 <= i < |values| ==> values[i].List?) && Carries(values[0], 1, n)
    ensures L.AmountOf(L.ReinvestPLG, Items(values)) == Some(n)
  {
    ReadsDecimal(n);
  }

  /** A posting of interest reads the last event itself. */
  lemma LastPlainReadsLast(values: seq<Value>, n: int)
    requires values != [] && (forall i :: 0 <= i < |values| ==> values[i].Text?)
    requires values[|values| - 1] == Text(Decimal(n))
    ensures L.AmountOf(L.PostInterest, Items(values)) == Some(n)
  {
    ReadsDecimal(n);
  }

  /** A refund and a recovery read the first field of the last event. */
  lemma LastAmountReadsFirstOfLast(values: seq<Value>, n: int)
    requires values != [] && (forall i :: 0 <= i < |values| ==> HasAmount(values[i]))
    requires Carries(values[|values| - 1], 0, n)
    ensures LastAmount(Items(values)) == Some(n)
  {
    ReadsDecimal(n);
  }

  /** A milestone vote reads user and vote from the first two fields of the last event, a moderation vote the user from
      the second. */
  lemma LastVoteReadsFields(values: seq<Value>, user: int, vote: bool)
    requires values != []
    ensures (forall i :: 0 <= i < |values| ==> IsVote(MilestoneKind, values[i]))
            && Carries(values[|values| - 1], 0, user) && values[|values| - 1].items[1] == Flag(vote) ==>
              LastVote(MilestoneKind, Items(values)) == Some((user, vote))
    ensures (forall i :: 0 <= i < |values| ==> IsVote(ModerationKind, values[i]))
            && Carries(values[|values| - 1], 1, user) ==>
              LastVote(ModerationKind, Items(values)) == Some((user, false))
  {
    ReadsDecimal(user);
  }

  /** A milestone check reads the second field of the last event; anything but the flag true is no pass. */
  lemma LastFlagReadsSecondOfLast(values: seq<Value>)
    requires values != [] && forall i :: 0 <= i < |values| ==> HasField(values[i], 1)
    ensures var last := values[|values| - 1];
            HasField(last, 1) && LastFlag(Items(values)) == Some(last.items[1] == Flag(true))
  {
    assert HasField(values[|values| - 1], 1);
  }

  // ---- Amounts in the ledger ----

  /** The events of a report carry an amount as decimal text where its kind looks for it. */
  predicate CarriesAmount(kind: L.CsKind, p: Payload, n: int) {
    p.Items? && p.values != [] &&
    match kind
    case StakePLG => (forall v :: v in p.values ==> L.IsPair(v)) && Carries(p.values[|p.values| - 1], 1, n)
    case UnstakePLG => (forall v :: v in p.values ==> L.IsPair(v)) && Carries(p.values[|p.values| - 1], 1, n)
    case WithdrawInterest => (forall v :: v in p.values ==> L.IsPair(v)) && Carries(p.values[|p.values| - 1], 1, n)
    case ReinvestPLG => (forall v :: v in p.values ==> v.List?) && Carries(p.values[0], 1, n)
    case PostInterest => (forall v :: v in p.values ==> v.Text?) && p.values[|p.values| - 1] == Text(Decimal(n))
    case OtherCs => false
  }

  lemma AmountIsRead(kind: L.CsKind, p: Payload, n: int)
    requires CarriesAmount(kind, p, n)
    ensures L.AmountOf(kind, p) == Some(n)
  {
    match kind
    case StakePLG => LastPairReadsSecondOfLast(p.values, n);
    case UnstakePLG => LastPairReadsSecondOfLast(p.values, n);
    case WithdrawInterest => LastPairReadsSecondOfLast(p.values, n);
    case ReinvestPLG => FirstPairReadsSecondOfFirst(p.values, n);
    case PostInterest => LastPlainReadsLast(p.values, n);
  }

  lemma {:induction false} BalanceOfUpdate(rows: seq<L.Row>, i: nat, row: L.Row, user: int)
    requires i < |rows| && row.user == rows[i].user
    ensures L.Balance(rows[i := row], user)
            == L.Balance(rows, user) + (if row.user == user then row.movement - rows[i].movement else 0)
  {
    var front := rows[..|rows| - 1];
    if i < |rows| - 1 {
      BalanceOfUpdate(front, i, row, user);
      assert rows[i := row][..|rows| - 1] == front[i := row];
    } else {
      assert rows[i := row][..|rows| - 1] == front;
    }
  }

  lemma BalancesOfUpdate(rows: seq<L.Row>, i: nat, row: L.Row)
    requires i < |rows| && row.user == rows[i].user
    ensures forall user :: L.Balance(rows[i := row], user)
                           == L.Balance(rows, user) + (if row.user == user then row.movement - rows[i].movement else 0)
  {
    forall user
      ensures L.Balance(rows[i := row], user)
              == L.Balance(rows, user) + (if row.user == user then row.movement - rows[i].movement else 0)
    {
      BalanceOfUpdate(rows, i, row, user);
    }
  }

  /** One report on a numbered table: the decimal number arrives in the row of its request and in no other. */
  lemma StepBooksDecimal(b: L.Book, r: L.Report, n: int)
    requires L.Numbered(b) && r.status.Complete? && r.parent < |b.rows| && CarriesAmount(r.kind, r.events, n)
    ensures var row := b.rows[r.parent];
            L.OnReport(b, r).rows == b.rows[r.parent :=
              row.(amount := if r.kind.StakePLG? then row.amount else n,
                   movement := if r.kind.UnstakePLG? then -n else if r.kind.ReinvestPLG? then n else row.movement)]
  {
    AmountIsRead(r.kind, r.events, n);
    L.FindsOwnRow(b.rows, r.parent);
  }

  /** After any history a successful report whose events carry the decimal text of `n` leaves that number in its
      request's row: an unstake books it with a minus, a reinvestment as it is, a withdrawal and a posting note it, a
      stake ignores it. No other row changes, and the owner's balance changes by exactly the difference. */
  lemma ReportBooksDecimal(moves: seq<L.Move>, r: L.Report, n: int)
    requires r.status.Complete? && r.parent < |H.Asked(moves)| && CarriesAmount(r.kind, r.events, n)
    ensures var b, b' := L.Run(moves), L.Run(moves + [L.Answered(r)]);
            && |b'.rows| == |b.rows| == |H.Asked(moves)|
            && var row, row' := b.rows[r.parent], b'.rows[r.parent];
            && b'.rows == b.rows[r.parent := row']
            && row' == row.(amount := if r.kind.StakePLG? then row.amount else n,
                            movement := if r.kind.UnstakePLG? then -n
                                        else if r.kind.ReinvestPLG? then n
                                        else row.movement)
            && forall user :: L.Balance(b'.rows, user) == L.Balance(b.rows, user) +
                                (if row.user == user then row'.movement - row.movement else 0)
  {
    var b := L.Run(moves);
    assert L.Run(moves + [L.Answered(r)]) == L.OnReport(b, r) by {
      assert (moves + [L.Answered(r)])[..|moves|] == moves;
    }
    H.RunMatches(moves);
    StepBooksDecimal(b, r, n);
    BalancesOfUpdate(b.rows, r.parent, L.OnReport(b, r).rows[r.parent]);
  }
}
