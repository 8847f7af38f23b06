/** The admin screen's two reports: the open bills (`mesas_abertas`, one per
    table with unpaid sent lines, with the suggested service charge) and the
    day's receipts (`historico_pagamentos`, one per batch of paid lines) with
    the day's totals. */
module Admin {
  import opened Orders
  import opened Grouping
  import Polling

  function TableOf(l: Line): int
  {
    l.table
  }

  function PriceOf(l: Line): real
  {
    l.price
  }

  function DiscountOf(l: Line): real
  {
    l.discount
  }

  function ChargeOf(l: Line): real
  {
    l.charge
  }

  // ----- mesas_abertas ----------------------------------------------------

  /** `pedidos_abertos`: the open lines, in table order. */
  function OpenLines(ls: seq<Line>): (r: seq<Line>)
    ensures forall l :: l in r <==> l in ls && IsOpen(l.status)
  {
    if ls == [] then []
    else
      var l := ls[|ls| - 1];
      assert ls == ls[..|ls| - 1] + [l];
      OpenLines(ls[..|ls| - 1]) + (if IsOpen(l.status) then [l] else [])
  }

  /** One open table: the header from its first open line, its lines, their
      sum, the suggested service charge and the estimated total. */
  datatype Bill = Bill(table: int, customer: string, items: seq<Line>, subtotal: real,
                       suggested: real, estimated: real)

  function BillOf(b: Bucket<Line, int>, percent: real): Bill
  {
    var subtotal := Total(b.members, PriceOf);
    var suggested := ServiceCharge(subtotal, percent, true);
    Bill(b.key, b.head.customer, b.members, subtotal, suggested, subtotal + suggested)
  }

  /** `mesas_abertas.values()` once both loops have run. */
  function Bills(ls: seq<Line>, percent: real): (r: seq<Bill>)
    ensures |r| == |Grouped(OpenLines(ls), TableOf)|
  {
    var bs := Grouped(OpenLines(ls), TableOf);
    seq(|bs|, j requires 0 <= j < |bs| => BillOf(bs[j], percent))
  }

  function BillSubtotal(b: Bill): real
  {
    b.subtotal
  }

  /** The open lines of one table add up to what closing that table charges. */
  lemma {:induction false} OpenLinesOfTable(ls: seq<Line>, t: int)
    ensures Total(Filter(OpenLines(ls), TableOf, t), PriceOf) == Subtotal(ls, t)
  {
    if ls != [] {
      var s, l := ls[..|ls| - 1], ls[|ls| - 1];
      OpenLinesOfTable(s, t);
      var o := OpenLines(s);
      var f := Filter(o, TableOf, t);
      if IsOpen(l.status) {
        assert OpenLines(ls) == o + [l];
        FilterSnoc(o, l, TableOf, t);
        if l.table == t {
          assert Filter(OpenLines(ls), TableOf, t) == f + [l];
          TotalSnoc(f, l, PriceOf);
          assert Subtotal(ls, t) == Subtotal(s, t) + l.price;
        } else {
          assert Filter(OpenLines(ls), TableOf, t) == f;
        }
      } else {
        assert OpenLines(ls) == o;
      }
    }
  }

  /** No table has two bills. */
  lemma BillsDistinct(ls: seq<Line>, percent: real)
    ensures var bills := Bills(ls, percent);
            forall i, j :: 0 <= i < j < |bills| ==> bills[i].table != bills[j].table
  {
    GroupedDistinct(OpenLines(ls), TableOf);
  }

  /** A table has a bill exactly when it has an open line. */
  lemma BillsTables(ls: seq<Line>, percent: real, t: int)
    ensures var bills := Bills(ls, percent);
            (exists j :: 0 <= j < |bills| && bills[j].table == t)
            <==> (exists l :: l in ls && IsOpen(l.status) && l.table == t)
  {
    var rows := OpenLines(ls);
    var bs := Grouped(rows, TableOf);
    var bills := Bills(ls, percent);
    if l :| l in ls && IsOpen(l.status) && l.table == t {
      assert l in rows;
      var k :| 0 <= k < |rows| && rows[k] == l;
      assert HasKey(bs, t) by {
        GroupedKeys(rows, TableOf);
        assert TableOf(rows[k]) == t;
      }
      var j :| 0 <= j < |bs| && bs[j].key == t;
      assert bills[j] == BillOf(bs[j], percent);
    }
    if j :| 0 <= j < |bills| && bills[j].table == t {
      assert bills[j] == BillOf(bs[j], percent);
      assert exists k :: 0 <= k < |rows| && TableOf(rows[k]) == bs[j].key by {
        GroupedKeys(rows, TableOf);
      }
      var k :| 0 <= k < |rows| && TableOf(rows[k]) == bs[j].key;
      assert rows[k] in rows;
    }
  }

  /** Each bill holds the table's open lines, its subtotal is what closing
      the table would charge, and its suggested charge is the charge closing
      with the service charge opted in would split over the lines. */
  lemma BillsAmounts(ls: seq<Line>, percent: real)
    ensures var bills := Bills(ls, percent);
            forall j :: 0 <= j < |bills| ==>
              var b := bills[j];
              && b.items == Filter(OpenLines(ls), TableOf, b.table)
              && b.subtotal == Subtotal(ls, b.table)
              && b.suggested == ServiceCharge(Subtotal(ls, b.table), percent, true)
              && b.estimated == b.subtotal + b.suggested
  {
    var bs := Grouped(OpenLines(ls), TableOf);
    var bills := Bills(ls, percent);
    forall j | 0 <= j < |bills|
      ensures var b := bills[j];
              && b.items == Filter(OpenLines(ls), TableOf, b.table)
              && b.subtotal == Subtotal(ls, b.table)
              && b.suggested == ServiceCharge(Subtotal(ls, b.table), percent, true)
              && b.estimated == b.subtotal + b.suggested
    {
      var t := bs[j].key;
      assert bills[j] == BillOf(bs[j], percent);
      assert bs[j].members == Filter(OpenLines(ls), TableOf, t) by {
        GroupedMembers(OpenLines(ls), TableOf);
      }
      assert Total(bs[j].members, PriceOf) == Subtotal(ls, t) by {
        OpenLinesOfTable(ls, t);
      }
    }
  }

  /** A bill's customer is the one on the table's first open line. */
  lemma BillsCustomer(ls: seq<Line>, percent: real)
    ensures var bills := Bills(ls, percent);
            var rows := OpenLines(ls);
            forall j :: 0 <= j < |bills| ==>
              var f := FirstIndex(rows, TableOf, bills[j].table);
              f < |rows| && bills[j].customer == rows[f].customer
  {
    GroupedHeads(OpenLines(ls), TableOf);
  }

  /** The open bills add up to the open total the admin's signature carries. */
  lemma BillsAddUp(ls: seq<Line>, percent: real)
    ensures Total(Bills(ls, percent), BillSubtotal) == Polling.OpenTotal(ls)
  {
    var bs := Grouped(OpenLines(ls), TableOf);
    TotalOfMapped(bs, Bills(ls, percent), BillSubtotal, PriceOf);
    GroupedTotal(OpenLines(ls), TableOf, PriceOf);
    OpenLinesTotal(ls);
  }

  lemma {:induction false} OpenLinesTotal(ls: seq<Line>)
    ensures Total(OpenLines(ls), PriceOf) == Polling.OpenTotal(ls)
  {
    if ls != [] {
      var o := OpenLines(ls[..|ls| - 1]);
      OpenLinesTotal(ls[..|ls| - 1]);
      if IsOpen(ls[|ls| - 1].status) {
        assert (o + [ls[|ls| - 1]])[..|o|] == o;
      } else {
        assert OpenLines(ls) == o;
      }
    }
  }

  /** The two loops that build `mesas_abertas`. */
  method OpenTables(ls: seq<Line>, percent: real) returns (bills: seq<Bill>)
    ensures bills == Bills(ls, percent)
  {
    var bs := GroupBy(OpenLines(ls), TableOf);
    bills := [];
    for j := 0 to |bs|
      invariant |bills| == j
      invariant forall m :: 0 <= m < j ==> bills[m] == BillOf(bs[m], percent)
    {
      var subtotal := Total(bs[j].members, PriceOf);
      var suggested := subtotal * (percent / 100.0);
      bills := bills + [Bill(bs[j].key, bs[j].head.customer, bs[j].members, subtotal,
                             suggested, subtotal + suggested)];
    }
  }

  // ----- historico_pagamentos ---------------------------------------------

  /** `chave`: the batch id when there is one and it is not 0 (a 0 is falsy
      in Python), otherwise the string `pg_<id>` of the line itself. */
  datatype ReceiptKey = ByBatch(batch: int) | ByLine(id: int)

  function KeyOf(l: Line): ReceiptKey
  {
    if l.batch.Some? && l.batch.value != 0 then ByBatch(l.batch.value) else ByLine(l.id)
  }

  /** `forma_pagamento or 'Dinheiro'`. */
  function PaymentName(p: Option<string>): string
  {
    if p.Some? && p.value != "" then p.value else "Dinheiro"
  }

  /** The paid lines the report covers: Pago and stamped between `lo` and `hi`. */
  function PaidBetween(ls: seq<Line>, lo: int, hi: int): (r: seq<Line>)
    ensures forall l :: l in r <==> l in ls && l.status == Pago && lo <= l.stamp <= hi
  {
    if ls == [] then []
    else
      var l := ls[|ls| - 1];
      assert ls == ls[..|ls| - 1] + [l];
      PaidBetween(ls[..|ls| - 1], lo, hi) + (if l.status == Pago && lo <= l.stamp <= hi then [l] else [])
  }

  /** One receipt: header, discount, charge and payment method read from its
      first line, the sum of its lines' prices, and the final total. */
  datatype Receipt = Receipt(key: ReceiptKey, table: int, customer: string, stamp: int,
                             items: seq<Line>, subtotal: real, discount: real, charge: real,
                             payment: string, total: real)

  function ReceiptOf(b: Bucket<Line, ReceiptKey>): Receipt
  {
    var subtotal := Total(b.members, PriceOf);
    Receipt(b.key, b.head.table, b.head.customer, b.head.stamp, b.members, subtotal,
            b.head.discount, b.head.charge, PaymentName(b.head.payment),
            subtotal + b.head.charge - b.head.discount)
  }

  /** The receipts, in the order their keys first appear in the paid lines. */
  function Receipts(rows: seq<Line>): (r: seq<Receipt>)
    ensures |r| == |Grouped(rows, KeyOf)|
  {
    var bs := Grouped(rows, KeyOf);
    seq(|bs|, j requires 0 <= j < |bs| => ReceiptOf(bs[j]))
  }

  function ReceiptSubtotal(r: Receipt): real
  {
    r.subtotal
  }

  function ReceiptDiscount(r: Receipt): real
  {
    r.discount
  }

  function ReceiptCharge(r: Receipt): real
  {
    r.charge
  }

  /** What a receipt adds to `faturamento_bruto`. */
  function ReceiptNet(r: Receipt): real
  {
    r.total - r.charge
  }

  /** One receipt per key, holding exactly that key's lines; the header,
      shares and payment method come from the key's first line. */
  lemma ReceiptsPerKey(rows: seq<Line>)
    ensures var rs := Receipts(rows);
            && (forall i, j :: 0 <= i < j < |rs| ==> rs[i].key != rs[j].key)
            && (forall j :: 0 <= j < |rs| ==>
                  var f := FirstIndex(rows, KeyOf, rs[j].key);
                  && rs[j].items == Filter(rows, KeyOf, rs[j].key)
                  && f < |rows|
                  && rs[j].table == rows[f].table && rs[j].customer == rows[f].customer
                  && rs[j].discount == rows[f].discount && rs[j].charge == rows[f].charge
                  && rs[j].payment == PaymentName(rows[f].payment))
  {
    GroupedDistinct(rows, KeyOf);
    GroupedMembers(rows, KeyOf);
    GroupedHeads(rows, KeyOf);
  }

  /** A line without a batch, or with batch 0, is a receipt of its own. */
  lemma UnbatchedLineAlone(rows: seq<Line>, k: nat)
    requires IdsDistinct(rows) && k < |rows|
    requires rows[k].batch == None || rows[k].batch == Some(0)
    ensures exists j :: 0 <= j < |Receipts(rows)| && Receipts(rows)[j].items == [rows[k]]
  {
    var bs := Grouped(rows, KeyOf);
    GroupedKeys(rows, KeyOf);
    GroupedMembers(rows, KeyOf);
    assert HasKey(bs, KeyOf(rows[k]));
    var j :| 0 <= j < |bs| && bs[j].key == ByLine(rows[k].id);
    OnlyLineWithId(rows, k);
    assert Receipts(rows)[j].items == [rows[k]];
  }

  lemma {:induction false} OnlyLineWithId(rows: seq<Line>, k: nat)
    requires IdsDistinct(rows) && k < |rows|
    requires rows[k].batch == None || rows[k].batch == Some(0)
    ensures Filter(rows, KeyOf, ByLine(rows[k].id)) == [rows[k]]
  {
    var s := rows[..|rows| - 1];
    var x := rows[|rows| - 1];
    if k == |rows| - 1 {
      assert forall i :: 0 <= i < |s| ==> KeyOf(s[i]) != ByLine(x.id) by {
        forall i | 0 <= i < |s| ensures KeyOf(s[i]) != ByLine(x.id) {
          assert s[i].id == rows[i].id;
        }
      }
      FilterNone(s, KeyOf, ByLine(x.id));
    } else {
      assert IdsDistinct(s);
      OnlyLineWithId(s, k);
      assert x.id != rows[k].id;
    }
  }

  lemma {:induction false} NetSplits(rs: seq<Receipt>)
    requires forall j :: 0 <= j < |rs| ==> rs[j].total == rs[j].subtotal + rs[j].charge - rs[j].discount
    ensures Total(rs, ReceiptNet) == Total(rs, ReceiptSubtotal) - Total(rs, ReceiptDiscount)
  {
    if rs != [] {
      NetSplits(rs[..|rs| - 1]);
    }
  }

  // ----- the shares a receipt shows ---------------------------------------

  /** The receipt the report evidently means to show: the discount and the
      service charge actually recorded on all of its lines. */
  function CorrectedReceiptOf(b: Bucket<Line, ReceiptKey>): Receipt
  {
    var subtotal := Total(b.members, PriceOf);
    var discount := Total(b.members, DiscountOf);
    var charge := Total(b.members, ChargeOf);
    Receipt(b.key, b.head.table, b.head.customer, b.head.stamp, b.members, subtotal,
            discount, charge, PaymentName(b.head.payment), subtotal + charge - discount)
  }

  function CorrectedReceipts(rows: seq<Line>): (r: seq<Receipt>)
    ensures |r| == |Grouped(rows, KeyOf)|
  {
    var bs := Grouped(rows, KeyOf);
    seq(|bs|, j requires 0 <= j < |bs| => CorrectedReceiptOf(bs[j]))
  }

  /** With the corrected receipts, the day's discounts and service charges
      are exactly those recorded on the paid lines, and the day's total is
      what the customers paid. */
  lemma CorrectedReceiptsAddUp(rows: seq<Line>)
    ensures var rs := CorrectedReceipts(rows);
            && Total(rs, ReceiptDiscount) == Total(rows, DiscountOf)
            && Total(rs, ReceiptCharge) == Total(rows, ChargeOf)
            && Total(rs, ReceiptNet) + Total(rs, ReceiptCharge)
               == Total(rows, PriceOf) + Total(rows, ChargeOf) - Total(rows, DiscountOf)
  {
    var bs := Grouped(rows, KeyOf);
    var rs := CorrectedReceipts(rows);
    TotalOfMapped(bs, rs, ReceiptDiscount, DiscountOf);
    TotalOfMapped(bs, rs, ReceiptCharge, ChargeOf);
    TotalOfMapped(bs, rs, ReceiptSubtotal, PriceOf);
    GroupedTotal(rows, KeyOf, DiscountOf);
    GroupedTotal(rows, KeyOf, ChargeOf);
    GroupedTotal(rows, KeyOf, PriceOf);
    NetSplits(rs);
  }

  /** Two drinks of 10.00 at table 3, sent together as batch 7 and closed
      with the 10% service charge: the table pays 2.00 of charge, 1.00 on
      each line. The receipt as written shows a charge of 1.00 and a total of
      21.00; the corrected receipt shows 2.00 and 22.00. */
  lemma ReceiptShowsOneShare()
    ensures var ls := [Coca, Suco];
            var paid := Closed(ls, 3, "Pix", 0.0, true, 10.0, 200);
            && ServiceCharge(Subtotal(ls, 3), 10.0, true) == 2.0
            && |Receipts(paid)| == 1 && Receipts(paid)[0].items == paid
            && Receipts(paid)[0].charge == 1.0 && Receipts(paid)[0].total == 21.0
            && CorrectedReceipts(paid)[0].charge == 2.0 && CorrectedReceipts(paid)[0].total == 22.0
  {
    var pa, pb := PaidCoca(), PaidSuco();
    ExampleClose();
    ExampleGroup();
    assert [pa, pb][..1] == [pa] && [pa][..0] == [];
    assert Total([pa], PriceOf) == 10.0 && Total([pa], ChargeOf) == 1.0 && Total([pa], DiscountOf) == 0.0;
    assert Total([pa, pb], PriceOf) == 20.0;
    assert Total([pa, pb], ChargeOf) == 2.0;
    assert Total([pa, pb], DiscountOf) == 0.0;
  }

  /** The two lines of the example: one batch, table 3, delivered. */
  const Coca := Line(1, Some(7), "Coca", "Bebidas", 10.0, 3, "Ana", "", 100, Entregue, None, 0.0, 0.0)
  const Suco := Line(2, Some(7), "Suco", "Bebidas", 10.0, 3, "Ana", "", 100, Entregue, None, 0.0, 0.0)

  function PaidCoca(): Line
  {
    Coca.(status := Pago, stamp := 200, payment := Some("Pix"), discount := 0.0, charge := 1.0)
  }

  function PaidSuco(): Line
  {
    Suco.(status := Pago, stamp := 200, payment := Some("Pix"), discount := 0.0, charge := 1.0)
  }

  /** Closing table 3 with the charge opted in pays each line 1.00 of the 2.00. */
  lemma ExampleClose()
    ensures ServiceCharge(Subtotal([Coca, Suco], 3), 10.0, true) == 2.0
    ensures Closed([Coca, Suco], 3, "Pix", 0.0, true, 10.0, 200) == [PaidCoca(), PaidSuco()]
  {
    var ls := [Coca, Suco];
    assert ls[..1] == [Coca] && [Coca][..0] == [];
    assert OpenCount([Coca], 3) == 1 && Subtotal([Coca], 3) == 10.0;
    assert OpenCount(ls, 3) == 2 && Subtotal(ls, 3) == 20.0;
    var op := Close(3, "Pix", 0.0, 1.0, 200);
    assert Step(op, Coca) == PaidCoca() && Step(op, Suco) == PaidSuco();
    assert Closed(ls, 3, "Pix", 0.0, true, 10.0, 200) == Apply(op, ls);
    assert Apply(op, [Coca]) == [PaidCoca()];
  }

  /** The two paid lines share one receipt, headed by the first. */
  lemma ExampleGroup()
    ensures Grouped([PaidCoca(), PaidSuco()], KeyOf) == [Bucket(ByBatch(7), PaidCoca(), [PaidCoca(), PaidSuco()])]
  {
    var pa, pb := PaidCoca(), PaidSuco();
    assert [pa, pb][..1] == [pa] && [pa][..0] == [];
    assert KeyOf(pa) == ByBatch(7) && KeyOf(pb) == ByBatch(7);
    var g1 := Insert([], pa, KeyOf);
    assert g1 == [Bucket(ByBatch(7), pa, [pa])];
    assert Grouped([pa], KeyOf) == g1;
    assert KeyIndex(g1, ByBatch(7)) == 0;
    assert Grouped([pa, pb], KeyOf) == Insert(g1, pb, KeyOf);
    assert [pa] + [pb] == [pa, pb];
    assert Insert(g1, pb, KeyOf) == g1[0 := Bucket(ByBatch(7), pa, [pa, pb])];
  }

  /** The loop over the receipts: `total_final` of each receipt, summed net
      of the charge into `faturamento_bruto` and the charges into
      `faturamento_taxa`. `receiptOf` builds a receipt from its bucket. */
  method Tally(bs: seq<Bucket<Line, ReceiptKey>>, receiptOf: Bucket<Line, ReceiptKey> -> Receipt)
    returns (receipts: seq<Receipt>, gross: real, charges: real)
    ensures |receipts| == |bs|
    ensures forall m :: 0 <= m < |bs| ==> receipts[m] == receiptOf(bs[m])
    ensures gross == Total(receipts, ReceiptNet)
    ensures charges == Total(receipts, ReceiptCharge)
  {
    receipts := [];
    gross, charges := 0.0, 0.0;
    for j := 0 to |bs|
      invariant |receipts| == j
      invariant forall m :: 0 <= m < j ==> receipts[m] == receiptOf(bs[m])
      invariant gross == Total(receipts, ReceiptNet)
      invariant charges == Total(receipts, ReceiptCharge)
    {
      var r := receiptOf(bs[j]);
      TotalSnoc(receipts, r, ReceiptNet);
      TotalSnoc(receipts, r, ReceiptCharge);
      receipts := receipts + [r];
      gross := gross + (r.total - r.charge);
      charges := charges + r.charge;
    }
  }

  /** The report as the program computes it: the receipts read their shares
      from their first lines, `total_dia` is every paid price plus the
      receipts' charges less their discounts, and `total_taxa` is the
      receipts' charges. */
  method DailyReport(rows: seq<Line>) returns (receipts: seq<Receipt>, totalDay: real, totalCharge: real)
    ensures receipts == Receipts(rows)
    ensures totalCharge == Total(receipts, ReceiptCharge)
    ensures totalDay == Total(rows, PriceOf) + Total(receipts, ReceiptCharge) - Total(receipts, ReceiptDiscount)
  {
    var bs := GroupBy(rows, KeyOf);
    var gross, charges;
    receipts, gross, charges := Tally(bs, ReceiptOf);
    totalDay := gross + charges;
    totalCharge := charges;
    assert receipts == Receipts(rows);
    ReceiptsAddUp(rows);
  }

  /** The receipts' subtotals add up to every paid price, so their net totals
      are those prices less the discounts the receipts show. */
  lemma ReceiptsAddUp(rows: seq<Line>)
    ensures var rs := Receipts(rows);
            && Total(rs, ReceiptSubtotal) == Total(rows, PriceOf)
            && Total(rs, ReceiptNet) == Total(rows, PriceOf) - Total(rs, ReceiptDiscount)
  {
    var bs := Grouped(rows, KeyOf);
    var rs := Receipts(rows);
    TotalOfMapped(bs, rs, ReceiptSubtotal, PriceOf);
    GroupedTotal(rows, KeyOf, PriceOf);
    NetSplits(rs);
  }

  /** The report with the corrected receipts: the day's service charges and
      total count every share recorded on the paid lines. */
  method CorrectedDailyReport(rows: seq<Line>) returns (receipts: seq<Receipt>, totalDay: real, totalCharge: real)
    ensures receipts == CorrectedReceipts(rows)
    ensures totalCharge == Total(rows, ChargeOf)
    ensures totalDay == Total(rows, PriceOf) + Total(rows, ChargeOf) - Total(rows, DiscountOf)
  {
    var bs := GroupBy(rows, KeyOf);
    var gross, charges;
    receipts, gross, charges := Tally(bs, CorrectedReceiptOf);
    totalDay := gross + charges;
    totalCharge := charges;
    assert receipts == CorrectedReceipts(rows);
    CorrectedReceiptsAddUp(rows);
  }

  /** The day of the example: the report as written gives a day's total of
      21.00 with 1.00 of service charge, though the table paid 22.00 with
      2.00 of charge; the corrected report gives 22.00 and 2.00. */
  lemma DayShowsOneShare()
    ensures var paid := Closed([Coca, Suco], 3, "Pix", 0.0, true, 10.0, 200);
            var rs, cs := Receipts(paid), CorrectedReceipts(paid);
            && Total(paid, PriceOf) + Total(rs, ReceiptCharge) - Total(rs, ReceiptDiscount) == 21.0
            && Total(rs, ReceiptCharge) == 1.0
            && Total(paid, PriceOf) + Total(paid, ChargeOf) - Total(paid, DiscountOf) == 22.0
            && Total(paid, ChargeOf) == 2.0
  {
    var paid := Closed([Coca, Suco], 3, "Pix", 0.0, true, 10.0, 200);
    ReceiptShowsOneShare();
    var r := Receipts(paid)[0];
    assert Receipts(paid) == [] + [r];
    TotalSnoc([], r, ReceiptCharge);
    TotalSnoc([], r, ReceiptDiscount);
    assert r.discount == 0.0 by { ExampleClose(); ExampleGroup(); }
    CorrectedReceiptsAddUp(paid);
    var c := CorrectedReceipts(paid)[0];
    assert CorrectedReceipts(paid) == [] + [c];
    TotalSnoc([], c, ReceiptCharge);
  }

  /** Rows that the receipt query can return: the paid lines of the day, each
      once, newest first (`order_by(data_hora.desc())`). */
  predicate IsReceiptQuery(ls: seq<Line>, lo: int, hi: int, rows: seq<Line>)
  {
    && multiset(rows) == multiset(PaidBetween(ls, lo, hi))
    && forall i, j :: 0 <= i < j < |rows| ==> rows[i].stamp >= rows[j].stamp
  }

  /** On a result of the receipt query, the receipts hold exactly the lines
      paid within the day: each such line is on a receipt, and nothing else is. */
  lemma ReceiptsCoverTheDay(ls: seq<Line>, lo: int, hi: int, rows: seq<Line>)
    requires IsReceiptQuery(ls, lo, hi, rows)
    ensures var rs := Receipts(rows);
            && (forall j, l :: 0 <= j < |rs| && l in rs[j].items ==>
                  l in ls && l.status == Pago && lo <= l.stamp <= hi)
            && (forall l :: l in ls && l.status == Pago && lo <= l.stamp <= hi ==>
                  exists j :: 0 <= j < |rs| && l in rs[j].items)
  {
    var rs := Receipts(rows);
    var bs := Grouped(rows, KeyOf);
    assert forall j :: 0 <= j < |rs| ==> rs[j].items == bs[j].members;
    GroupedCovers(rows, KeyOf);
    forall l
      ensures l in rows <==> l in ls && l.status == Pago && lo <= l.stamp <= hi
    {
      assert l in rows <==> l in multiset(PaidBetween(ls, lo, hi));
    }
  }

  /** A receipt of a single line shows the same whether it reads the first
      line's shares or sums them: the two differ only on batches. */
  lemma CorrectedAgreesOnOneLine(b: Bucket<Line, ReceiptKey>)
    requires b.members == [b.head]
    ensures CorrectedReceiptOf(b) == ReceiptOf(b)
  {
    TotalSnoc([], b.head, DiscountOf);
    TotalSnoc([], b.head, ChargeOf);
    assert [] + [b.head] == b.members;
  }
}
