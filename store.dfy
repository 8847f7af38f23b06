/** The restaurant's database as one object: the `Pedido` table and the single
    `Configuracao` row. Each request handler of app.py that changes state is a
    method that updates the object in one step (one commit): it runs the
    handler's loop over the selected lines and assigns their fields in place. */
module Store {
  import opened Orders

  /** The first `i` lines of `after` are the update of `before`'s, the rest are untouched. */
  ghost predicate UpdatedUpTo(op: Op, before: seq<Line>, after: seq<Line>, i: int)
  {
    && |after| == |before|
    && 0 <= i <= |before|
    && (forall k :: 0 <= k < i ==> after[k] == Step(op, before[k]))
    && (forall k :: i <= k < |after| ==> after[k] == before[k])
  }

  lemma UpdatedAll(op: Op, before: seq<Line>, after: seq<Line>)
    requires UpdatedUpTo(op, before, after, |before|)
    ensures after == Apply(op, before)
  {
    ApplyAt(op, before);
  }

  class Restaurant {
    /** The `Pedido` rows, in insertion order. */
    var lines: seq<Line>
    /** `Configuracao.taxa_servico`: the service charge, in percent. */
    var servicePercent: real

    ghost predicate Valid()
      reads this
    {
      IdsDistinct(lines) && AllWellFormed(lines)
    }

    /** A freshly created database: no orders and the seeded 10% service charge. */
    constructor ()
      ensures Valid() && lines == [] && servicePercent == 10.0
    {
      lines := [];
      servicePercent := 10.0;
    }

    /** adicionar_item: insert one cart line for the table. `category` is
        None when the form did not send one. */
    method AddItem(table: int, customer: string, product: string, category: Option<string>,
                   price: real, note: string, now: int) returns (id: int)
      requires Valid()
      modifies this
      ensures Valid()
      ensures lines == old(lines) + [NewLine(old(lines), table, customer, product, category, price, note, now)]
      ensures id == lines[|lines| - 1].id && forall k :: 0 <= k < |old(lines)| ==> old(lines)[k].id < id
      ensures servicePercent == old(servicePercent)
    {
      var l := NewLine(lines, table, customer, product, category, price, note, now);
      AddSpec(lines, table, customer, product, category, price, note, now);
      lines := lines + [l];
      id := l.id;
    }

    /** enviar_cozinha: when the table has cart lines, give them all the batch
        id `batch` (the clock reading in seconds) and the time `now`, and route
        drinks and desserts to Entregue and the rest to Pendente. */
    method SendToKitchen(table: int, batch: int, now: int)
      requires Valid()
      modifies this
      ensures Valid()
      ensures lines == Apply(Send(table, batch, now), old(lines))
      ensures servicePercent == old(servicePercent)
    {
      ApplyKeepsRows(Send(table, batch, now), lines);
      if CountIn(lines, AtTable(table), Carrinho) == 0 {
        SendEmptyCart(lines, table, batch, now);
        return;
      }
      var i := 0;
      while i < |lines|
        invariant UpdatedUpTo(Send(table, batch, now), old(lines), lines, i)
        invariant servicePercent == old(servicePercent)
      {
        var l := lines[i];
        if l.table == table && l.status == Carrinho {
          var status := if SkipsKitchen(l.category) then Entregue else Pendente;
          lines := lines[i := l.(batch := Some(batch), stamp := now, status := status)];
        }
        i := i + 1;
      }
      UpdatedAll(Send(table, batch, now), old(lines), lines);
    }

    /** cancelar_item: delete the line with the given id, whatever its status;
        `found` tells whether there was one. */
    method CancelItem(id: int) returns (found: bool)
      requires Valid()
      modifies this
      ensures Valid()
      ensures lines == Cancelled(old(lines), id)
      ensures found <==> exists k :: 0 <= k < |old(lines)| && old(lines)[k].id == id
      ensures servicePercent == old(servicePercent)
    {
      CancelKeepsValid(lines, id);
      var k := 0;
      while k < |lines| && lines[k].id != id
        invariant 0 <= k <= |lines|
        invariant forall m :: 0 <= m < k ==> lines[m].id != id
      {
        k := k + 1;
      }
      assert k == IndexOfId(lines, id);
      found := k < |lines|;
      if found {
        lines := lines[..k] + lines[k + 1..];
      }
    }

    /** garcom_confirma: the table's Pronto lines become Entregue. */
    method WaiterConfirm(table: int)
      requires Valid()
      modifies this
      ensures Valid()
      ensures lines == Apply(Confirm(table), old(lines))
      ensures servicePercent == old(servicePercent)
    {
      ApplyKeepsRows(Confirm(table), lines);
      var i := 0;
      while i < |lines|
        invariant UpdatedUpTo(Confirm(table), old(lines), lines, i)
        invariant servicePercent == old(servicePercent)
      {
        if lines[i].table == table && lines[i].status == Pronto {
          lines := lines[i := lines[i].(status := Entregue)];
        }
        i := i + 1;
      }
      UpdatedAll(Confirm(table), old(lines), lines);
    }

    /** iniciar_preparo: the batch's Pendente lines become Preparando. */
    method StartPreparing(batch: int)
      requires Valid()
      modifies this
      ensures Valid()
      ensures lines == Apply(StartPrep(batch), old(lines))
      ensures servicePercent == old(servicePercent)
    {
      ApplyKeepsRows(StartPrep(batch), lines);
      var i := 0;
      while i < |lines|
        invariant UpdatedUpTo(StartPrep(batch), old(lines), lines, i)
        invariant servicePercent == old(servicePercent)
      {
        if lines[i].batch == Some(batch) && lines[i].status == Pendente {
          lines := lines[i := lines[i].(status := Preparando)];
        }
        i := i + 1;
      }
      UpdatedAll(StartPrep(batch), old(lines), lines);
    }

    /** marcar_pronto: every line of the batch becomes Pronto. */
    method MarkBatchReady(batch: int)
      requires Valid()
      modifies this
      ensures Valid()
      ensures lines == Apply(MarkReady(batch), old(lines))
      ensures servicePercent == old(servicePercent)
    {
      ApplyKeepsRows(MarkReady(batch), lines);
      var i := 0;
      while i < |lines|
        invariant UpdatedUpTo(MarkReady(batch), old(lines), lines, i)
        invariant servicePercent == old(servicePercent)
      {
        if lines[i].batch == Some(batch) {
          lines := lines[i := lines[i].(status := Pronto)];
        }
        i := i + 1;
      }
      UpdatedAll(MarkReady(batch), old(lines), lines);
    }

    /** finalizar_entrega: every line of the batch becomes Entregue. */
    method FinalizeDelivery(batch: int)
      requires Valid()
      modifies this
      ensures Valid()
      ensures lines == Apply(Finalize(batch), old(lines))
      ensures servicePercent == old(servicePercent)
    {
      ApplyKeepsRows(Finalize(batch), lines);
      var i := 0;
      while i < |lines|
        invariant UpdatedUpTo(Finalize(batch), old(lines), lines, i)
        invariant servicePercent == old(servicePercent)
      {
        if lines[i].batch == Some(batch) {
          lines := lines[i := lines[i].(status := Entregue)];
        }
        i := i + 1;
      }
      UpdatedAll(Finalize(batch), old(lines), lines);
    }

    /** The query at the head of fechar_conta_post: how many open lines the
        table has and what they add up to. Changes nothing. */
    method OpenTotals(table: int) returns (n: nat, subtotal: real)
      ensures n == OpenCount(lines, table) && subtotal == Subtotal(lines, table)
    {
      n := 0;
      subtotal := 0.0;
      for i := 0 to |lines|
        invariant n == OpenCount(lines[..i], table)
        invariant subtotal == Subtotal(lines[..i], table)
      {
        assert lines[..i + 1][..i] == lines[..i];
        if lines[i].table == table && IsOpen(lines[i].status) {
          n := n + 1;
          subtotal := subtotal + lines[i].price;
        }
      }
      assert lines[..|lines|] == lines;
    }

    /** The loop of fechar_conta_post: every open line of the table is paid
        with the given shares. */
    method PayOpenLines(table: int, payment: string, discountShare: real, chargeShare: real, now: int)
      requires Valid()
      modifies this
      ensures Valid()
      ensures lines == Apply(Close(table, payment, discountShare, chargeShare, now), old(lines))
      ensures servicePercent == old(servicePercent)
    {
      ghost var op := Close(table, payment, discountShare, chargeShare, now);
      ApplyKeepsRows(op, lines);
      var i := 0;
      while i < |lines|
        invariant UpdatedUpTo(op, old(lines), lines, i)
        invariant servicePercent == old(servicePercent)
      {
        if lines[i].table == table && IsOpen(lines[i].status) {
          lines := lines[i := lines[i].(status := Pago, stamp := now, payment := Some(payment),
                                        discount := discountShare, charge := chargeShare)];
        }
        i := i + 1;
      }
      UpdatedAll(op, old(lines), lines);
    }

    /** fechar_conta_post: when the table has open lines, mark them all Pago
        with the payment method and time `now`, and split the discount (None
        for an empty form field, read as 0) and the service charge (when opted
        in) evenly over them. */
    method CloseTable(table: int, payment: string, discount: Option<real>, chargeOptIn: bool, now: int)
      requires Valid()
      modifies this
      ensures Valid()
      ensures lines == Closed(old(lines), table, payment, discount.GetOr(0.0), chargeOptIn,
                              old(servicePercent), now)
      ensures servicePercent == old(servicePercent)
    {
      var n, subtotal := OpenTotals(table);
      if n == 0 {
        assert lines == Closed(lines, table, payment, discount.GetOr(0.0), chargeOptIn, servicePercent, now);
        return;
      }
      var charge := if chargeOptIn then subtotal * (servicePercent / 100.0) else 0.0;
      assert charge == ServiceCharge(subtotal, servicePercent, chargeOptIn);
      ghost var op := Close(table, payment, discount.GetOr(0.0) / n as real, charge / n as real, now);
      assert Closed(lines, table, payment, discount.GetOr(0.0), chargeOptIn, servicePercent, now) == Apply(op, lines);
      PayOpenLines(table, payment, discount.GetOr(0.0) / n as real, charge / n as real, now);
    }

    /** The admin settings form: store a new service-charge percentage. */
    method SetServicePercent(percent: real)
      requires Valid()
      modifies this
      ensures Valid()
      ensures servicePercent == percent && lines == old(lines)
    {
      servicePercent := percent;
    }
  }
}
