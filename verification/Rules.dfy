/** What the rules ask of the transactions of a block, said of the ledger they are put
    on: nothing here mentions the index, the files or the order of the tests. */
module Rules {
  import opened Basics
  import opened Serialize
  import opened TxIndex
  import opened Ledger
  import opened Supply

  // ----- what a transaction pays -----

  ghost predicate HasInputs(placed: map<uint256, Entry>, tx: CTransaction, i: nat) {
    forall k {:trigger Exists(placed, tx.vin[k].prevout)} :: i <= k < |tx.vin| ==> Exists(placed, tx.vin[k].prevout)
  }

  function OutputValue(placed: map<uint256, Entry>, p: COutPoint): int
    requires Exists(placed, p)
  {
    placed[p.hash].tx.vout[p.n].nValue
  }

  /** The value of the outputs that inputs i and later name. */
  ghost function InputValue(placed: map<uint256, Entry>, tx: CTransaction, i: nat): int
    requires i <= |tx.vin| && HasInputs(placed, tx, i)
    decreases |tx.vin| - i
  {
    if i == |tx.vin| then 0 else
    assert Exists(placed, tx.vin[i].prevout);
    OutputValue(placed, tx.vin[i].prevout) + InputValue(placed, tx, i + 1)
  }

  ghost predicate Funded(placed: map<uint256, Entry>, tx: CTransaction) {
    tx.IsCoinBase() || HasInputs(placed, tx, 0)
  }

  /** What tx pays: the value of the outputs it spends less that of the outputs it
      makes.  A coinbase pays nothing. */
  ghost function Fee(placed: map<uint256, Entry>, tx: CTransaction): int
    requires Funded(placed, tx)
  {
    if tx.IsCoinBase() then 0 else InputValue(placed, tx, 0) - ValueOf(tx.vout)
  }

  ghost predicate AllFunded(placed: map<uint256, Entry>, es: seq<Entry>) {
    forall k {:trigger Funded(placed, es[k].tx)} :: 0 <= k < |es| ==> Funded(placed, es[k].tx)
  }

  ghost function TotalFee(placed: map<uint256, Entry>, es: seq<Entry>): int
    requires AllFunded(placed, es)
  {
    if es == [] then 0 else
    assert Funded(placed, es[|es| - 1].tx);
    FrontFunded(placed, es);
    TotalFee(placed, es[..|es| - 1]) + Fee(placed, es[|es| - 1].tx)
  }

  ghost predicate Grows(placed: map<uint256, Entry>, placed': map<uint256, Entry>) {
    forall h :: h in placed ==> h in placed' && placed'[h] == placed[h]
  }

  lemma {:induction false} FrontFunded(placed: map<uint256, Entry>, es: seq<Entry>)
    requires es != [] && AllFunded(placed, es)
    ensures AllFunded(placed, es[..|es| - 1])
  {
    var front := es[..|es| - 1];
    forall k | 0 <= k < |front| ensures Funded(placed, front[k].tx) { assert Funded(placed, es[k].tx); }
  }

  lemma {:induction false} InputValueGrows(placed: map<uint256, Entry>, placed': map<uint256, Entry>, tx: CTransaction, i: nat)
    requires Grows(placed, placed') && HasInputs(placed, tx, i) && i <= |tx.vin|
    ensures HasInputs(placed', tx, i) && InputValue(placed', tx, i) == InputValue(placed, tx, i)
    decreases |tx.vin| - i
  {
    if i < |tx.vin| {
      assert Exists(placed, tx.vin[i].prevout);
      InputValueGrows(placed, placed', tx, i + 1);
    }
  }

  lemma {:induction false} FeeGrows(placed: map<uint256, Entry>, placed': map<uint256, Entry>, tx: CTransaction)
    requires Grows(placed, placed') && Funded(placed, tx)
    ensures Funded(placed', tx) && Fee(placed', tx) == Fee(placed, tx)
  {
    if !tx.IsCoinBase() {
      InputValueGrows(placed, placed', tx, 0);
    }
  }

  lemma {:induction false} TotalFeeGrows(placed: map<uint256, Entry>, placed': map<uint256, Entry>, es: seq<Entry>)
    requires Grows(placed, placed') && AllFunded(placed, es)
    ensures AllFunded(placed', es) && TotalFee(placed', es) == TotalFee(placed, es)
  {
    forall k | 0 <= k < |es|
      ensures Funded(placed', es[k].tx)
    {
      assert Funded(placed, es[k].tx);
      FeeGrows(placed, placed', es[k].tx);
    }
    if es != [] {
      assert Funded(placed, es[|es| - 1].tx);
      FrontFunded(placed, es);
      TotalFeeGrows(placed, placed', es[..|es| - 1]);
      FeeGrows(placed, placed', es[|es| - 1].tx);
    }
  }

  lemma {:induction false} FeeAppend(placed: map<uint256, Entry>, es: seq<Entry>, e: Entry)
    requires AllFunded(placed, es) && Funded(placed, e.tx)
    ensures AllFunded(placed, es + [e]) && TotalFee(placed, es + [e]) == TotalFee(placed, es) + Fee(placed, e.tx)
  {
    forall k | 0 <= k < |es + [e]|
      ensures Funded(placed, (es + [e])[k].tx)
    {
      assert k < |es| ==> Funded(placed, es[k].tx);
    }
    assert (es + [e])[..|es|] == es;
  }

  // ----- the rules -----

  /** Script evaluation for one input, and whether a coinbase at a position is immature. */
  type Verify = (seq<byte>, seq<byte>, CTransaction, nat) -> bool
  type Young = CDiskTxPos -> bool

  /** Input k names an output of a placed transaction, satisfies the script of that output,
      and does not take it from an immature coinbase. */
  ghost predicate InputOk(verify: Verify, young: Young, placed: map<uint256, Entry>, tx: CTransaction, k: nat) {
    && k < |tx.vin| && Exists(placed, tx.vin[k].prevout)
    && var p := tx.vin[k].prevout;
       var e := placed[p.hash];
       && verify(tx.vin[k].scriptSig, e.tx.vout[p.n].scriptPubKey, tx, k)
       && !(e.tx.IsCoinBase() && young(e.pos))
  }

  ghost predicate InputsOk(verify: Verify, young: Young, placed: map<uint256, Entry>, tx: CTransaction, i: nat) {
    forall k: nat {:trigger InputOk(verify, young, placed, tx, k)} :: i <= k < |tx.vin| ==> InputOk(verify, young, placed, tx, k)
  }

  /** Where the transactions in placed are on the ledger and the outputs in spent are
      spent, tx may come next: it spends outputs that exist and are unspent, each once,
      may spend them, and takes out no more than they bring in. */
  ghost predicate EntryRule(verify: Verify, young: Young, placed: map<uint256, Entry>, spent: map<COutPoint, CDiskTxPos>, tx: CTransaction) {
    tx.IsCoinBase() ||
    (&& ValidInputs(placed, spent, tx, 0) && InputsOk(verify, young, placed, tx, 0)
     && HasInputs(placed, tx, 0) && ValueOf(tx.vout) <= InputValue(placed, tx, 0) <= MAX_MONEY)
  }

  /** Entry m of es may come after the ledger l and the entries before it. */
  ghost predicate RuleAt(f: TxHash, verify: Verify, young: Young, l: seq<Entry>, es: seq<Entry>, m: nat) {
    m < |es| && EntryRule(verify, young, Placed(f, l + es[..m]), Spent(l + es[..m]), es[m].tx)
  }

  // ----- ConnectInputs tests exactly these rules -----

  ghost predicate Known(c: Context, placed: map<uint256, Entry>, h: uint256)
    requires h in placed
  {
    && c.hashTx(placed[h].tx) == h && c.fetch(h, placed[h].pos) == Some(placed[h].tx) && OutputsInRange(placed[h].tx.vout)
  }

  /** The transactions in placed read back from where they are, under their hashes. */
  ghost predicate AllKnown(c: Context, placed: map<uint256, Entry>) {
    forall h {:trigger Known(c, placed, h)} :: h in placed ==> Known(c, placed, h)
  }

  ghost predicate NoNulls(spent: map<COutPoint, CDiskTxPos>) {
    forall p :: p in spent ==> !spent[p].IsNull()
  }

  lemma {:induction false} InputExact(c: Context, placed: map<uint256, Entry>, spent: map<COutPoint, CDiskTxPos>,
                                      tx: CTransaction, pos: CDiskTxPos, i: nat, nValueIn: int)
    requires i < |tx.vin| && AllKnown(c, placed) && NoNulls(spent)
    ensures var p, r := tx.vin[i].prevout, ConnectInput(c, IndexOf(placed, spent), tx, pos, i, nValueIn);
            && (r.Some? <==> InputOk(c.verifyScript, c.immature, placed, tx, i) && p !in spent
                             && MoneyRange(nValueIn + OutputValue(placed, p)))
            && (r.Some? ==> r.value == (IndexOf(placed, spent[p := pos]), nValueIn + OutputValue(placed, p)))
  {
    var p := tx.vin[i].prevout;
    if p.hash in placed {
      assert Known(c, placed, p.hash);
      if Exists(placed, p) {
        SpendStep(placed, spent, p, pos);
        ValueInRange(placed[p.hash].tx.vout, p.n);
      }
    }
  }

  lemma {:induction false} ValueInRange(vout: seq<CTxOut>, n: nat)
    requires OutputsInRange(vout) && n < |vout|
    ensures MoneyRange(vout[n].nValue)
  {
  }

  lemma {:induction false} ValidInputsStep(placed: map<uint256, Entry>, spent: map<COutPoint, CDiskTxPos>, tx: CTransaction, i: nat, pos: CDiskTxPos)
    requires i < |tx.vin|
    ensures var p := tx.vin[i].prevout;
            ValidInputs(placed, spent, tx, i) <==>
            Exists(placed, p) && p !in spent && ValidInputs(placed, spent[p := pos], tx, i + 1)
  {
  }

  lemma {:induction false} InputValueNonneg(c: Context, placed: map<uint256, Entry>, tx: CTransaction, i: nat)
    requires AllKnown(c, placed) && i <= |tx.vin| && HasInputs(placed, tx, i)
    ensures InputValue(placed, tx, i) >= 0
    decreases |tx.vin| - i
  {
    if i < |tx.vin| {
      assert Exists(placed, tx.vin[i].prevout) && Known(c, placed, tx.vin[i].prevout.hash);
      ValueInRange(placed[tx.vin[i].prevout.hash].tx.vout, tx.vin[i].prevout.n);
      InputValueNonneg(c, placed, tx, i + 1);
    }
  }

  ghost predicate InputsRule(c: Context, placed: map<uint256, Entry>, spent: map<COutPoint, CDiskTxPos>, tx: CTransaction, i: nat, nValueIn: int) {
    && ValidInputs(placed, spent, tx, i) && InputsOk(c.verifyScript, c.immature, placed, tx, i)
    && i <= |tx.vin| && HasInputs(placed, tx, i) && MoneyRange(nValueIn + InputValue(placed, tx, i))
  }

  lemma {:induction false} InputsOkStep(verify: Verify, young: Young, placed: map<uint256, Entry>, tx: CTransaction, i: nat)
    requires i < |tx.vin|
    ensures InputsOk(verify, young, placed, tx, i) <==> InputOk(verify, young, placed, tx, i) && InputsOk(verify, young, placed, tx, i + 1)
  {
  }

  lemma {:induction false} HasInputsStep(placed: map<uint256, Entry>, tx: CTransaction, i: nat)
    requires i < |tx.vin|
    ensures HasInputs(placed, tx, i) <==> Exists(placed, tx.vin[i].prevout) && HasInputs(placed, tx, i + 1)
  {
  }

  /** One input more. */
  lemma {:induction false} InputsRuleStep(c: Context, placed: map<uint256, Entry>, spent: map<COutPoint, CDiskTxPos>,
                                          tx: CTransaction, pos: CDiskTxPos, i: nat, nValueIn: int)
    requires i < |tx.vin| && AllKnown(c, placed) && nValueIn >= 0
    ensures var p := tx.vin[i].prevout;
            InputsRule(c, placed, spent, tx, i, nValueIn) <==>
            && InputOk(c.verifyScript, c.immature, placed, tx, i) && p !in spent && MoneyRange(nValueIn + OutputValue(placed, p))
            && InputsRule(c, placed, spent[p := pos], tx, i + 1, nValueIn + OutputValue(placed, p))
    ensures InputsRule(c, placed, spent, tx, i, nValueIn) ==>
              var v := OutputValue(placed, tx.vin[i].prevout); InputValue(placed, tx, i) == v + InputValue(placed, tx, i + 1) && v >= 0
  {
    var p := tx.vin[i].prevout;
    ValidInputsStep(placed, spent, tx, i, pos);
    InputsOkStep(c.verifyScript, c.immature, placed, tx, i);
    HasInputsStep(placed, tx, i);
    if HasInputs(placed, tx, i) {
      assert Known(c, placed, p.hash);
      ValueInRange(placed[p.hash].tx.vout, p.n);
      InputValueNonneg(c, placed, tx, i + 1);
    }
  }

  lemma {:induction false} InputsRuleEnd(c: Context, placed: map<uint256, Entry>, spent: map<COutPoint, CDiskTxPos>, tx: CTransaction, nValueIn: int)
    requires MoneyRange(nValueIn)
    ensures InputsRule(c, placed, spent, tx, |tx.vin|, nValueIn) && InputValue(placed, tx, |tx.vin|) == 0
  {
  }

  /** The loop over the inputs succeeds exactly if the rules hold of all of them, and then
      has added up their value. */
  lemma {:induction false} InputsExact(c: Context, placed: map<uint256, Entry>, spent: map<COutPoint, CDiskTxPos>,
                                       tx: CTransaction, pos: CDiskTxPos, i: nat, nValueIn: int)
    requires i <= |tx.vin| && AllKnown(c, placed) && NoNulls(spent) && !pos.IsNull() && MoneyRange(nValueIn)
    ensures var r := ConnectInputsFrom(c, IndexOf(placed, spent), tx, pos, i, nValueIn);
            && (r.Some? <==> InputsRule(c, placed, spent, tx, i, nValueIn))
            && (r.Some? ==> r.value.1 == nValueIn + InputValue(placed, tx, i))
    decreases |tx.vin| - i
  {
    if i == |tx.vin| {
      InputsRuleEnd(c, placed, spent, tx, nValueIn);
    } else {
      InputExact(c, placed, spent, tx, pos, i, nValueIn);
      InputsRuleStep(c, placed, spent, tx, pos, i, nValueIn);
      var step := ConnectInput(c, IndexOf(placed, spent), tx, pos, i, nValueIn);
      FromStep(c, IndexOf(placed, spent), tx, pos, i, nValueIn, step);
      if step.Some? {
        InputsExact(c, placed, spent[tx.vin[i].prevout := pos], tx, pos, i + 1, step.value.1);
      }
    }
  }

  ghost predicate LedgerKnown(c: Context, l: seq<Entry>) {
    AllKnown(c, Placed(c.hashTx, l)) && NoNulls(Spent(l))
  }

  /** A transaction connects on a ledger exactly if the rules let it come next and, unless
      it is a coinbase, it pays the fee asked for. */
  lemma {:induction false} TxExact(c: Context, l: seq<Entry>, e: Entry, nFees: int, nMinFee: int)
    requires LedgerKnown(c, l) && !e.pos.IsNull() && OutputsInRange(e.tx.vout) && MoneyRange(nFees)
    ensures var placed, r := Placed(c.hashTx, l), ConnectTx(c, LedgerIndex(c.hashTx, l), e.tx, e.pos, nFees, nMinFee);
            && (r.Connected? <==> EntryRule(c.verifyScript, c.immature, placed, Spent(l), e.tx)
                                  && (e.tx.IsCoinBase() || Fee(placed, e.tx) >= nMinFee) && MoneyRange(nFees + Fee(placed, e.tx)))
            && (r.Connected? ==> r.nFees == nFees + Fee(placed, e.tx))
  {
    if !e.tx.IsCoinBase() {
      ValueMonotone(e.tx.vout, 0);
      InputsExact(c, Placed(c.hashTx, l), Spent(l), e.tx, e.pos, 0, 0);
    }
  }

  // ----- and ConnectBlock's loop tests them of all transactions -----

  ghost predicate ValuesOk(l: seq<Entry>) {
    forall k :: 0 <= k < |l| ==> OutputsInRange(l[k].tx.vout)
  }

  lemma {:induction false} KnownLedger(c: Context, l: seq<Entry>)
    requires ValidLedger(c.hashTx, l) && FetchAgrees(c, l) && ValuesOk(l)
    ensures LedgerKnown(c, l)
  {
    SpentClosed(c.hashTx, l);
    PlacedKeys(c.hashTx, l);
    var placed := Placed(c.hashTx, l);
    forall h | h in placed
      ensures Known(c, placed, h)
    {
      var k :| 0 <= k < |l| && HashOf(c.hashTx, l[k]) == h;
      PlacedAt(c.hashTx, l, k);
    }
  }

  /** The transactions of l and of the first n entries of es are stored, and different ones
      have different hashes; the entries of es are those of a block. */
  ghost predicate Stored(c: Context, l: seq<Entry>, es: seq<Entry>) {
    && ValidLedger(c.hashTx, l) && AllPlaced(es) && BlockOn(c.hashTx, l, es)
    && NoCollisions(c.hashTx, l + es) && FetchAgrees(c, l + es) && ValuesOk(l + es)
  }

  lemma {:induction false} StoredPrefix(c: Context, l: seq<Entry>, es: seq<Entry>, n: nat)
    requires Stored(c, l, es) && n < |es|
    ensures FetchAgrees(c, l + es[..n]) && ValuesOk(l + es[..n]) && OutputsInRange(es[n].tx.vout)
    ensures forall k :: 0 <= k < |l + es[..n]| && HashOf(c.hashTx, (l + es[..n])[k]) == HashOf(c.hashTx, es[n]) ==> (l + es[..n])[k].tx == es[n].tx
  {
    var v, w := l + es[..n], l + es;
    assert w[|l| + n] == es[n];
    forall k | 0 <= k < |v|
      ensures v[k] == w[k]
    {
    }
  }

  /** The first n entries come in a right order. */
  ghost predicate InOrder(f: TxHash, verify: Verify, young: Young, l: seq<Entry>, es: seq<Entry>, n: nat) {
    n <= |es| && forall m: nat {:trigger RuleAt(f, verify, young, l, es, m)} :: m < n ==> RuleAt(f, verify, young, l, es, m)
  }

  ghost predicate FeesInRange(placed: map<uint256, Entry>, es: seq<Entry>) {
    AllFunded(placed, es) && MoneyRange(TotalFee(placed, es))
  }

  lemma {:induction false} PlacedGrows(f: TxHash, l: seq<Entry>, e: Entry)
    requires HashOf(f, e) !in Placed(f, l)
    ensures Grows(Placed(f, l), Placed(f, l + [e]))
  {
    assert (l + [e])[..|l|] == l;
  }

  lemma {:induction false} PrefixNext(l: seq<Entry>, es: seq<Entry>, n: nat)
    requires n < |es|
    ensures es[..n + 1] == es[..n] + [es[n]] && l + es[..n + 1] == (l + es[..n]) + [es[n]]
  {
  }

  /** What the rules let come next is new: a repeated transaction would find its first
      input spent by itself. */
  lemma {:induction false} RuleIsFresh(f: TxHash, verify: Verify, young: Young, l: seq<Entry>, e: Entry)
    requires ValidLedger(f, l) && EntryRule(verify, young, Placed(f, l), Spent(l), e.tx)
    requires HashOf(f, e) !in Placed(f, l) || Spends(e)
    requires forall k :: 0 <= k < |l| && HashOf(f, l[k]) == HashOf(f, e) ==> l[k].tx == e.tx
    ensures HashOf(f, e) !in Placed(f, l)
  {
    if HashOf(f, e) in Placed(f, l) {
      PlacedKeys(f, l);
      var k :| 0 <= k < |l| && HashOf(f, l[k]) == HashOf(f, e);
      SpenderRecorded(f, l, k, 0, e.tx.vin[0].prevout);
    }
  }

  lemma {:induction false} RuleExtends(f: TxHash, verify: Verify, young: Young, l: seq<Entry>, e: Entry)
    requires ValidLedger(f, l) && EntryRule(verify, young, Placed(f, l), Spent(l), e.tx)
    requires HashOf(f, e) !in Placed(f, l) && !e.pos.IsNull()
    ensures ValidLedger(f, l + [e]) && Grows(Placed(f, l), Placed(f, l + [e]))
    ensures Funded(Placed(f, l), e.tx) && Fee(Placed(f, l), e.tx) >= 0
  {
    assert (l + [e])[..|l|] == l;
    PlacedGrows(f, l, e);
  }

  lemma {:induction false} FeesNext(f: TxHash, l: seq<Entry>, es: seq<Entry>, e: Entry)
    requires AllFunded(Placed(f, l), es) && Funded(Placed(f, l), e.tx) && Grows(Placed(f, l), Placed(f, l + [e]))
    ensures AllFunded(Placed(f, l + [e]), es + [e])
    ensures TotalFee(Placed(f, l + [e]), es + [e]) == TotalFee(Placed(f, l), es) + Fee(Placed(f, l), e.tx)
  {
    FeeAppend(Placed(f, l), es, e);
    TotalFeeGrows(Placed(f, l), Placed(f, l + [e]), es + [e]);
  }

  ghost predicate FreshAt(f: TxHash, l: seq<Entry>, es: seq<Entry>, n: nat)
    requires n < |es|
  {
    HashOf(f, es[n]) !in Placed(f, l + es[..n])
  }

  /** Entries in a right order extend the ledger, and the fees add up. */
  lemma {:induction false} OrderExtends(c: Context, verify: Verify, young: Young, l: seq<Entry>, es: seq<Entry>, n: nat)
    requires Stored(c, l, es) && InOrder(c.hashTx, verify, young, l, es, n)
    ensures var f, v := c.hashTx, l + es[..n]; ValidLedger(f, v) && AllFunded(Placed(f, v), es[..n]) && TotalFee(Placed(f, v), es[..n]) >= 0
    ensures n > 0 ==> var f, u, e := c.hashTx, l + es[..n - 1], es[n - 1];
              && FreshAt(f, l, es, n - 1) && AllFunded(Placed(f, u), es[..n - 1]) && Funded(Placed(f, u), e.tx)
              && TotalFee(Placed(f, l + es[..n]), es[..n]) == TotalFee(Placed(f, u), es[..n - 1]) + Fee(Placed(f, u), e.tx)
              && TotalFee(Placed(f, u), es[..n - 1]) >= 0 && Fee(Placed(f, u), e.tx) >= 0
    decreases n
  {
    if n == 0 {
      assert l + es[..0] == l;
    } else {
      OrderExtends(c, verify, young, l, es, n - 1);
      OneMore(c, verify, young, l, es, n - 1);
    }
  }

  lemma {:induction false} OneMore(c: Context, verify: Verify, young: Young, l: seq<Entry>, es: seq<Entry>, n: nat)
    requires Stored(c, l, es) && n < |es| && RuleAt(c.hashTx, verify, young, l, es, n)
    requires ValidLedger(c.hashTx, l + es[..n]) && AllFunded(Placed(c.hashTx, l + es[..n]), es[..n])
    ensures var f, u, v, e := c.hashTx, l + es[..n], l + es[..n + 1], es[n];
            && FreshAt(f, l, es, n) && ValidLedger(f, v) && AllFunded(Placed(f, v), es[..n + 1])
            && Funded(Placed(f, u), e.tx) && Fee(Placed(f, u), e.tx) >= 0
            && TotalFee(Placed(f, v), es[..n + 1]) == TotalFee(Placed(f, u), es[..n]) + Fee(Placed(f, u), e.tx)
  {
    var f, u, e := c.hashTx, l + es[..n], es[n];
    StoredPrefix(c, l, es, n);
    assert u == l + es[..n] && (n == 0 ==> u == l);
    RuleIsFresh(f, verify, young, u, e);
    RuleExtends(f, verify, young, u, e);
    PrefixNext(l, es, n);
    FeesNext(f, u, es[..n], e);
  }

  /** ConnectEntries on the first n entries succeeds exactly if they come in a right order
      and their fees are in range; it then stands at the ledger they make, with the
      fees added up. */
  ghost predicate ExactTo(c: Context, l: seq<Entry>, es: seq<Entry>, n: nat)
    requires n <= |es|
  {
    var f, v, r := c.hashTx, l + es[..n], ConnectEntries(c, LedgerIndex(c.hashTx, l), es[..n], 0);
    && (r.Some? <==> InOrder(f, c.verifyScript, c.immature, l, es, n) && FeesInRange(Placed(f, v), es[..n]))
    && (r.Some? ==> r.value == (LedgerIndex(f, v), TotalFee(Placed(f, v), es[..n])))
  }

  /** With one more entry in order and fees in range, they were before. */
  lemma {:induction false} OrderBefore(c: Context, l: seq<Entry>, es: seq<Entry>, n: nat)
    requires Stored(c, l, es) && n < |es| && InOrder(c.hashTx, c.verifyScript, c.immature, l, es, n + 1)
    ensures var f, u, v, e := c.hashTx, l + es[..n], l + es[..n + 1], es[n];
            && InOrder(f, c.verifyScript, c.immature, l, es, n) && RuleAt(f, c.verifyScript, c.immature, l, es, n)
            && AllFunded(Placed(f, u), es[..n]) && AllFunded(Placed(f, v), es[..n + 1]) && Funded(Placed(f, u), e.tx)
            && TotalFee(Placed(f, v), es[..n + 1]) == TotalFee(Placed(f, u), es[..n]) + Fee(Placed(f, u), e.tx)
            && TotalFee(Placed(f, u), es[..n]) >= 0 && Fee(Placed(f, u), e.tx) >= 0
  {
    OrderExtends(c, c.verifyScript, c.immature, l, es, n + 1);
    assert RuleAt(c.hashTx, c.verifyScript, c.immature, l, es, n);
  }

  /** What the next transaction does to the loop. */
  lemma {:induction false} NextConnects(c: Context, l: seq<Entry>, es: seq<Entry>, n: nat, nFees: int)
    requires Stored(c, l, es) && n < |es| && InOrder(c.hashTx, c.verifyScript, c.immature, l, es, n)
    requires AllFunded(Placed(c.hashTx, l + es[..n]), es[..n]) && nFees == TotalFee(Placed(c.hashTx, l + es[..n]), es[..n])
    requires MoneyRange(nFees)
    ensures var f, v, s := c.hashTx, l + es[..n + 1], ConnectTx(c, LedgerIndex(c.hashTx, l + es[..n]), es[n].tx, es[n].pos, nFees, 0);
            && (s.Connected? <==> RuleAt(f, c.verifyScript, c.immature, l, es, n) && FeesInRange(Placed(f, v), es[..n + 1]))
            && (s.Connected? ==> s.idx == LedgerIndex(f, v) && s.nFees == TotalFee(Placed(f, v), es[..n + 1]))
  {
    HereExact(c, l, es, n, nFees);
    OrderExtends(c, c.verifyScript, c.immature, l, es, n);
    if RuleAt(c.hashTx, c.verifyScript, c.immature, l, es, n) {
      RangeNext(c, l, es, n, nFees);
    }
  }

  lemma {:induction false} HereExact(c: Context, l: seq<Entry>, es: seq<Entry>, n: nat, nFees: int)
    requires Stored(c, l, es) && n < |es| && InOrder(c.hashTx, c.verifyScript, c.immature, l, es, n) && MoneyRange(nFees)
    ensures var placed, s := Placed(c.hashTx, l + es[..n]), ConnectTx(c, LedgerIndex(c.hashTx, l + es[..n]), es[n].tx, es[n].pos, nFees, 0);
            && (s.Connected? <==> RuleAt(c.hashTx, c.verifyScript, c.immature, l, es, n) && MoneyRange(nFees + Fee(placed, es[n].tx)))
            && (s.Connected? ==> s.nFees == nFees + Fee(placed, es[n].tx))
  {
    OrderExtends(c, c.verifyScript, c.immature, l, es, n);
    StoredPrefix(c, l, es, n);
    KnownLedger(c, l + es[..n]);
    TxExact(c, l + es[..n], es[n], nFees, 0);
  }

  lemma {:induction false} RangeNext(c: Context, l: seq<Entry>, es: seq<Entry>, n: nat, nFees: int)
    requires Stored(c, l, es) && n < |es| && RuleAt(c.hashTx, c.verifyScript, c.immature, l, es, n)
    requires ValidLedger(c.hashTx, l + es[..n]) && AllFunded(Placed(c.hashTx, l + es[..n]), es[..n])
    requires nFees == TotalFee(Placed(c.hashTx, l + es[..n]), es[..n])
    ensures var f, u, v := c.hashTx, l + es[..n], l + es[..n + 1];
            var s := ConnectTx(c, LedgerIndex(f, u), es[n].tx, es[n].pos, nFees, 0);
            && Funded(Placed(f, u), es[n].tx) && AllFunded(Placed(f, v), es[..n + 1])
            && TotalFee(Placed(f, v), es[..n + 1]) == nFees + Fee(Placed(f, u), es[n].tx)
            && (s.Connected? ==> s.idx == LedgerIndex(f, v))
  {
    OneMore(c, c.verifyScript, c.immature, l, es, n);
    PrefixNext(l, es, n);
    ConnectTxOnLedger(c, l + es[..n], es[n], nFees, 0);
  }

  lemma {:induction false} EntriesExact(c: Context, l: seq<Entry>, es: seq<Entry>, n: nat)
    requires Stored(c, l, es) && n <= |es|
    ensures ExactTo(c, l, es, n)
    decreases n
  {
    if n == 0 {
      assert l + es[..0] == l;
    } else {
      EntriesExact(c, l, es, n - 1);
      EntriesExactNext(c, l, es, n - 1);
    }
  }

  lemma {:induction false} EntriesExactNext(c: Context, l: seq<Entry>, es: seq<Entry>, n: nat)
    requires Stored(c, l, es) && n < |es| && ExactTo(c, l, es, n)
    ensures ExactTo(c, l, es, n + 1)
  {
    var f := c.hashTx;
    var r := ConnectEntries(c, LedgerIndex(f, l), es[..n], 0);
    PrefixNext(l, es, n);
    ConnectEntriesAppend(c, LedgerIndex(f, l), es[..n], es[n], 0);
    if InOrder(f, c.verifyScript, c.immature, l, es, n + 1) {
      OrderBefore(c, l, es, n);
    }
    if r.Some? {
      NextConnects(c, l, es, n, r.value.1);
      InOrderNext(f, c.verifyScript, c.immature, l, es, n);
    }
  }

  lemma {:induction false} InOrderNext(f: TxHash, verify: Verify, young: Young, l: seq<Entry>, es: seq<Entry>, n: nat)
    requires n < |es|
    ensures InOrder(f, verify, young, l, es, n + 1) <==> InOrder(f, verify, young, l, es, n) && RuleAt(f, verify, young, l, es, n)
  {
  }

  // ----- what the rules have left on a ledger -----

  /** Some transaction of l has the output that input i of tx names, and the input
      satisfies its script. */
  ghost predicate SignedFor(f: TxHash, verify: Verify, l: seq<Entry>, tx: CTransaction, i: nat)
    requires i < |tx.vin|
  {
    var p := tx.vin[i].prevout;
    exists j {:trigger HashOf(f, l[j])} :: 0 <= j < |l| && HashOf(f, l[j]) == p.hash && p.n < |l[j].tx.vout|
      && verify(tx.vin[i].scriptSig, l[j].tx.vout[p.n].scriptPubKey, tx, i)
  }

  ghost predicate AllSigned(f: TxHash, verify: Verify, l: seq<Entry>, tx: CTransaction) {
    forall i: nat {:trigger SignedFor(f, verify, l, tx, i)} :: i < |tx.vin| ==> SignedFor(f, verify, l, tx, i)
  }

  /** tx, unless it is a coinbase, satisfies the script of every output it spends, and makes
      no money. */
  ghost predicate RightfulOn(f: TxHash, verify: Verify, l: seq<Entry>, tx: CTransaction) {
    tx.IsCoinBase() ||
      (&& AllSigned(f, verify, l, tx) && HasInputs(Placed(f, l), tx, 0)
       && ValueOf(tx.vout) <= InputValue(Placed(f, l), tx, 0))
  }

  ghost predicate EntryIs(l: seq<Entry>, b: nat, e: Entry) {
    b < |l| && e == l[b]
  }

  /** Entry b of l is rightful. */
  ghost predicate Rightful(f: TxHash, verify: Verify, l: seq<Entry>, b: nat) {
    b < |l| && forall e {:trigger EntryIs(l, b, e)} :: EntryIs(l, b, e) ==> RightfulOn(f, verify, l, e.tx)
  }

  lemma {:induction false} PrefixGrows(f: TxHash, l: seq<Entry>, n: nat)
    requires ValidLedger(f, l) && n <= |l|
    ensures ValidLedger(f, l[..n]) && Grows(Placed(f, l[..n]), Placed(f, l))
  {
    if n == |l| {
      assert l[..n] == l;
    } else {
      PrefixGrows(f, l[..|l| - 1], n);
      assert l[..|l| - 1][..n] == l[..n];
    }
  }

  lemma {:induction false} SignedGrows(f: TxHash, verify: Verify, l: seq<Entry>, n: nat, tx: CTransaction)
    requires n <= |l| && AllSigned(f, verify, l[..n], tx)
    ensures AllSigned(f, verify, l, tx)
  {
    forall i: nat | i < |tx.vin|
      ensures SignedFor(f, verify, l, tx, i)
    {
      assert SignedFor(f, verify, l[..n], tx, i);
      var p := tx.vin[i].prevout;
      var j :| 0 <= j < n && HashOf(f, l[..n][j]) == p.hash && p.n < |l[..n][j].tx.vout|
        && verify(tx.vin[i].scriptSig, l[..n][j].tx.vout[p.n].scriptPubKey, tx, i);
      assert HashOf(f, l[j]) == p.hash;
    }
  }

  lemma {:induction false} RightfulGrows(f: TxHash, verify: Verify, l: seq<Entry>, n: nat, b: nat)
    requires ValidLedger(f, l) && n <= |l| && Rightful(f, verify, l[..n], b)
    ensures Rightful(f, verify, l, b)
  {
    assert EntryIs(l[..n], b, l[b]);
    if !l[b].tx.IsCoinBase() {
      SignedGrows(f, verify, l, n, l[b].tx);
      PrefixGrows(f, l, n);
      InputValueGrows(Placed(f, l[..n]), Placed(f, l), l[b].tx, 0);
    }
  }

  lemma {:induction false} RuleSigned(f: TxHash, verify: Verify, young: Young, l: seq<Entry>, tx: CTransaction)
    requires ValidLedger(f, l) && InputsOk(verify, young, Placed(f, l), tx, 0)
    ensures AllSigned(f, verify, l, tx)
  {
    PlacedKeys(f, l);
    forall i: nat | i < |tx.vin|
      ensures SignedFor(f, verify, l, tx, i)
    {
      assert InputOk(verify, young, Placed(f, l), tx, i);
      var j :| 0 <= j < |l| && HashOf(f, l[j]) == tx.vin[i].prevout.hash;
      PlacedAt(f, l, j);
    }
  }

  /** What comes in a right order is rightful. */
  lemma {:induction false} RuleIsRightful(f: TxHash, verify: Verify, young: Young, l: seq<Entry>, es: seq<Entry>, m: nat)
    requires ValidLedger(f, l + es) && RuleAt(f, verify, young, l, es, m)
    ensures Rightful(f, verify, l + es, |l| + m)
  {
    var v, n, tx := l + es, |l| + m, es[m].tx;
    assert v[..n] == l + es[..m] && v[n] == es[m];
    PrefixGrows(f, v, n);
    if !tx.IsCoinBase() {
      RuleSigned(f, verify, young, v[..n], tx);
      SignedGrows(f, verify, v, n, tx);
      InputValueGrows(Placed(f, v[..n]), Placed(f, v), tx, 0);
    }
  }

  lemma {:induction false} FrontValid(f: TxHash, l: seq<Entry>, es: seq<Entry>)
    requires ValidLedger(f, l + es)
    ensures ValidLedger(f, l)
  {
    assert (l + es)[..|l|] == l;
    PrefixGrows(f, l + es, |l|);
  }

  ghost predicate AllRightful(f: TxHash, verify: Verify, l: seq<Entry>) {
    forall b: nat {:trigger Rightful(f, verify, l, b)} :: b < |l| ==> Rightful(f, verify, l, b)
  }

  /** A rightful ledger stays so when entries follow in a right order. */
  lemma {:induction false} OrderRightful(f: TxHash, verify: Verify, young: Young, l: seq<Entry>, es: seq<Entry>)
    requires ValidLedger(f, l + es) && AllRightful(f, verify, l) && InOrder(f, verify, young, l, es, |es|)
    ensures AllRightful(f, verify, l + es)
  {
    forall b: nat | b < |l + es|
      ensures Rightful(f, verify, l + es, b)
    {
      if b < |l| {
        assert Rightful(f, verify, l, b);
        RightfulJoin(f, verify, l, es, b);
      } else {
        assert RuleAt(f, verify, young, l, es, b - |l|);
        RuleIsRightful(f, verify, young, l, es, b - |l|);
      }
    }
  }

  lemma {:induction false} RightfulJoin(f: TxHash, verify: Verify, l: seq<Entry>, es: seq<Entry>, b: nat)
    requires ValidLedger(f, l + es) && Rightful(f, verify, l, b)
    ensures Rightful(f, verify, l + es, b)
  {
    assert (l + es)[..|l|] == l;
    RightfulGrows(f, verify, l + es, |l|, b);
  }
}
