/** The order line (a row of the `Pedido` table), its status machine, and the
    updates the request handlers of app.py apply to the table of lines, stated
    as functions of the table before the request. */
module Orders {
  import opened Text

  datatype Option<T> = None | Some(value: T) {
    function GetOr(default: T): T
    {
      match this
      case Some(v) => v
      case None => default
    }
  }

  /** The closed set of statuses a line goes through. */
  datatype Status = Carrinho | Pendente | Preparando | Pronto | Entregue | Pago

  /** One ordered item. `batch` is the `comanda_id` shared by the lines sent to
      the kitchen together; `stamp` stands for `data_hora` as an ordered value;
      `payment`, `discount` and `charge` are filled in when the table is closed. */
  datatype Line = Line(
    id: int,
    batch: Option<int>,
    product: string,
    category: string,
    price: real,
    table: int,
    customer: string,
    note: string,
    stamp: int,
    status: Status,
    payment: Option<string>,
    discount: real,
    charge: real)

  /** The statuses of a sent but unpaid line: the ones a table's bill is made of. */
  predicate IsOpen(s: Status)
  {
    s == Pendente || s == Preparando || s == Pronto || s == Entregue
  }

  /** The statuses the kitchen screen shows. */
  predicate InKitchen(s: Status)
  {
    s == Pendente || s == Preparando || s == Pronto
  }

  /** Drinks and desserts bypass the kitchen when the cart is sent. */
  predicate SkipsKitchen(category: string)
  {
    Contains(category, "Bebidas") || Contains(category, "Sobremesas")
  }

  /** A line in the cart has no batch, and a line that left the cart has one. */
  predicate WellFormed(l: Line)
  {
    l.status == Carrinho <==> l.batch == None
  }

  predicate AllWellFormed(ls: seq<Line>)
  {
    forall i :: 0 <= i < |ls| ==> WellFormed(ls[i])
  }

  /** `id` is the table's primary key. */
  predicate IdsDistinct(ls: seq<Line>)
  {
    forall i, j :: 0 <= i < j < |ls| ==> ls[i].id != ls[j].id
  }

  /** Which lines a count is taken over: one table or the whole restaurant. */
  datatype Scope = AtTable(table: int) | Everywhere

  predicate InScope(l: Line, scope: Scope)
  {
    scope.Everywhere? || l.table == scope.table
  }

  /** `Pedido.query.filter_by(status=s)` (and `mesa=t` for a table) `.count()`. */
  function CountIn(ls: seq<Line>, scope: Scope, s: Status): nat
  {
    if ls == [] then 0
    else CountIn(ls[..|ls| - 1], scope, s)
         + (if InScope(ls[|ls| - 1], scope) && ls[|ls| - 1].status == s then 1 else 0)
  }

  lemma {:induction false} CountZeroIff(ls: seq<Line>, scope: Scope, s: Status)
    ensures CountIn(ls, scope, s) == 0
            <==> forall i :: 0 <= i < |ls| ==> !(InScope(ls[i], scope) && ls[i].status == s)
  {
    if ls != [] {
      CountZeroIff(ls[..|ls| - 1], scope, s);
    }
  }

  // ----- adicionar_item ---------------------------------------------------

  /** The largest id in use, or 0 for an empty table. */
  function MaxId(ls: seq<Line>): (m: int)
    ensures m >= 0
    ensures forall i :: 0 <= i < |ls| ==> ls[i].id <= m
    ensures m == 0 || exists i :: 0 <= i < |ls| && ls[i].id == m
  {
    if ls == [] then 0
    else
      var m := MaxId(ls[..|ls| - 1]);
      if ls[|ls| - 1].id > m then ls[|ls| - 1].id else m
  }

  /** The row the database inserts: the next primary key, the category the
      form sent or "Geral", in the cart, no batch, nothing paid. */
  function NewLine(ls: seq<Line>, table: int, customer: string, product: string,
                   category: Option<string>, price: real, note: string, now: int): Line
  {
    Line(MaxId(ls) + 1, None, product, category.GetOr("Geral"), price, table, customer,
         note, now, Carrinho, None, 0.0, 0.0)
  }

  lemma AddSpec(ls: seq<Line>, table: int, customer: string, product: string,
                category: Option<string>, price: real, note: string, now: int)
    ensures var l := NewLine(ls, table, customer, product, category, price, note, now);
            && l.status == Carrinho && l.batch == None
            && l.table == table && l.price == price
            && l.category == (if category.Some? then category.value else "Geral")
            && (forall i :: 0 <= i < |ls| ==> ls[i].id < l.id)
            && (IdsDistinct(ls) ==> IdsDistinct(ls + [l]))
            && (AllWellFormed(ls) ==> AllWellFormed(ls + [l]))
  {
  }

  // ----- cancelar_item ----------------------------------------------------

  /** Position of the first line with the given id, or `|ls|` when there is none. */
  function IndexOfId(ls: seq<Line>, id: int): (k: nat)
    ensures k <= |ls|
    ensures k < |ls| ==> ls[k].id == id
    ensures forall j :: 0 <= j < k ==> ls[j].id != id
  {
    if ls == [] then 0 else if ls[0].id == id then 0 else 1 + IndexOfId(ls[1..], id)
  }

  /** The table after deleting the line with the given id, whatever its status. */
  function Cancelled(ls: seq<Line>, id: int): seq<Line>
  {
    var k := IndexOfId(ls, id);
    if k < |ls| then ls[..k] + ls[k + 1..] else ls
  }

  /** Cancelling removes the line with the given id and keeps every other line
      in order; an unknown id changes nothing. */
  lemma CancelSpec(ls: seq<Line>, id: int)
    requires IdsDistinct(ls)
    ensures var r := Cancelled(ls, id);
            && (forall i :: 0 <= i < |r| ==> r[i].id != id)
            && (forall i :: 0 <= i < |ls| && ls[i].id != id ==> ls[i] in r)
            && ((forall i :: 0 <= i < |ls| ==> ls[i].id != id) ==> r == ls)
            && (forall i :: 0 <= i < |ls| && ls[i].id == id ==> |r| == |ls| - 1)
  {
    var k := IndexOfId(ls, id);
    if k < |ls| {
      CancelledAt(ls, id);
      var r := Cancelled(ls, id);
      forall i | 0 <= i < |ls| && ls[i].id != id ensures ls[i] in r {
        if i < k { assert r[i] == ls[i]; } else { assert r[i - 1] == ls[i]; }
      }
    }
  }

  lemma CancelledAt(ls: seq<Line>, id: int)
    requires IdsDistinct(ls)
    requires IndexOfId(ls, id) < |ls|
    ensures var k := IndexOfId(ls, id);
            var r := Cancelled(ls, id);
            && |r| == |ls| - 1
            && (forall i :: 0 <= i < k ==> r[i] == ls[i])
            && (forall i :: k <= i < |r| ==> r[i] == ls[i + 1])
            && (forall i :: 0 <= i < |ls| && i != k ==> ls[i].id != id)
  {
    var k := IndexOfId(ls, id);
    var r := Cancelled(ls, id);
    assert r == ls[..k] + ls[k + 1..];
    forall i | 0 <= i < |ls| && i != k ensures ls[i].id != id {
      if i < k { assert ls[i].id != ls[k].id; } else { assert ls[k].id != ls[i].id; }
    }
  }

  /** Cancelling keeps the table well formed; the removed line may have had any status. */
  lemma CancelKeepsValid(ls: seq<Line>, id: int)
    requires IdsDistinct(ls)
    ensures IdsDistinct(Cancelled(ls, id))
    ensures AllWellFormed(ls) ==> AllWellFormed(Cancelled(ls, id))
    ensures multiset(Cancelled(ls, id)) <= multiset(ls)
  {
    var k := IndexOfId(ls, id);
    if k < |ls| {
      CancelledAt(ls, id);
      assert ls == ls[..k] + [ls[k]] + ls[k + 1..];
    }
  }

  // ----- the batch and table updates --------------------------------------

  /** The in-place updates of app.py, each applied to the lines its query selects. */
  datatype Op =
    | Send(table: int, batch: int, now: int)           // enviar_cozinha
    | Confirm(table: int)                               // garcom_confirma
    | StartPrep(batch: int)                             // iniciar_preparo
    | MarkReady(batch: int)                             // marcar_pronto
    | Finalize(batch: int)                              // finalizar_entrega
    | Close(table: int, payment: string, discountShare: real, chargeShare: real, now: int)
                                                        // fechar_conta_post

  /** The lines the handler's query returns (and, for iniciar_preparo, that pass its `if`). */
  predicate Selects(op: Op, l: Line)
  {
    match op
    case Send(t, _, _) => l.table == t && l.status == Carrinho
    case Confirm(t) => l.table == t && l.status == Pronto
    case StartPrep(b) => l.batch == Some(b) && l.status == Pendente
    case MarkReady(b) => l.batch == Some(b)
    case Finalize(b) => l.batch == Some(b)
    case Close(t, _, _, _, _) => l.table == t && IsOpen(l.status)
  }

  /** What the handler assigns to one selected line. */
  function Step(op: Op, l: Line): Line
  {
    if !Selects(op, l) then l
    else match op
      case Send(_, b, now) =>
        l.(batch := Some(b), stamp := now,
           status := if SkipsKitchen(l.category) then Entregue else Pendente)
      case Confirm(_) => l.(status := Entregue)
      case StartPrep(_) => l.(status := Preparando)
      case MarkReady(_) => l.(status := Pronto)
      case Finalize(_) => l.(status := Entregue)
      case Close(_, p, d, c, now) =>
        l.(status := Pago, stamp := now, payment := Some(p), discount := d, charge := c)
  }

  /** The table after one handler's loop has run over it. */
  function Apply(op: Op, ls: seq<Line>): (r: seq<Line>)
    ensures |r| == |ls|
  {
    if ls == [] then [] else Apply(op, ls[..|ls| - 1]) + [Step(op, ls[|ls| - 1])]
  }

  lemma {:induction false} ApplyAt(op: Op, ls: seq<Line>)
    ensures |Apply(op, ls)| == |ls|
    ensures forall i :: 0 <= i < |ls| ==> Apply(op, ls)[i] == Step(op, ls[i])
  {
    if ls != [] {
      ApplyAt(op, ls[..|ls| - 1]);
    }
  }

  /** No update touches a line's identity or the copy of the product it was
      ordered with, and every update keeps the table well formed. */
  lemma ApplyKeepsRows(op: Op, ls: seq<Line>)
    ensures var r := Apply(op, ls);
            && |r| == |ls|
            && (forall i :: 0 <= i < |ls| ==>
                  && r[i].id == ls[i].id && r[i].product == ls[i].product
                  && r[i].category == ls[i].category && r[i].price == ls[i].price
                  && r[i].table == ls[i].table && r[i].customer == ls[i].customer
                  && r[i].note == ls[i].note)
            && (IdsDistinct(ls) ==> IdsDistinct(r))
            && (AllWellFormed(ls) ==> AllWellFormed(r))
  {
    ApplyAt(op, ls);
    var r := Apply(op, ls);
    forall i | 0 <= i < |ls|
      ensures && r[i].id == ls[i].id && r[i].product == ls[i].product
              && r[i].category == ls[i].category && r[i].price == ls[i].price
              && r[i].table == ls[i].table && r[i].customer == ls[i].customer
              && r[i].note == ls[i].note
              && (WellFormed(ls[i]) ==> WellFormed(r[i]))
    {
      StepKeepsRow(op, ls[i]);
    }
  }

  /** One update keeps a line's identity and product, and its batch rule. */
  lemma StepKeepsRow(op: Op, l: Line)
    ensures var l' := Step(op, l);
            && l'.id == l.id && l'.product == l.product && l'.category == l.category
            && l'.price == l.price && l'.table == l.table && l'.customer == l.customer
            && l'.note == l.note
            && (WellFormed(l) ==> WellFormed(l'))
  {
  }

  /** Position of a status along the machine's happy path. */
  function Rank(s: Status): nat
  {
    match s
    case Carrinho => 0
    case Pendente => 1
    case Preparando => 2
    case Pronto => 3
    case Entregue => 4
    case Pago => 5
  }

  /** Sending, confirming, starting preparation and closing only move lines forward. */
  lemma ForwardOnly(op: Op, ls: seq<Line>)
    requires !op.MarkReady? && !op.Finalize?
    ensures forall i :: 0 <= i < |ls| ==> Rank(Apply(op, ls)[i].status) >= Rank(ls[i].status)
  {
    ApplyAt(op, ls);
  }

  /** Marking a batch ready or finalizing it also rewrites lines of the batch
      that were already delivered or paid, moving them backwards. */
  lemma {:induction false} BatchUpdatesRewritePaid(ls: seq<Line>, b: int)
    ensures forall i :: 0 <= i < |ls| && ls[i].batch == Some(b) ==>
              Apply(MarkReady(b), ls)[i].status == Pronto && Apply(Finalize(b), ls)[i].status == Entregue
    ensures forall i :: 0 <= i < |ls| && ls[i].batch == Some(b) && ls[i].status == Pago ==>
              Rank(Apply(MarkReady(b), ls)[i].status) < Rank(ls[i].status)
  {
    ApplyAt(MarkReady(b), ls);
    ApplyAt(Finalize(b), ls);
  }

  // enviar_cozinha

  lemma SendSpec(ls: seq<Line>, table: int, batch: int, now: int)
    ensures var r := Apply(Send(table, batch, now), ls);
            && |r| == |ls|
            && (forall i :: 0 <= i < |ls| && ls[i].table == table && ls[i].status == Carrinho ==>
                  && r[i].batch == Some(batch) && r[i].stamp == now
                  && r[i].status == (if SkipsKitchen(ls[i].category) then Entregue else Pendente)
                  && r[i] == ls[i].(batch := r[i].batch, stamp := now, status := r[i].status))
            && (forall i :: 0 <= i < |ls| && !(ls[i].table == table && ls[i].status == Carrinho) ==>
                  r[i] == ls[i])
            && CountIn(r, AtTable(table), Carrinho) == 0
  {
    ApplyAt(Send(table, batch, now), ls);
    CountZeroIff(Apply(Send(table, batch, now), ls), AtTable(table), Carrinho);
  }

  /** Sending an empty cart changes nothing. */
  lemma SendEmptyCart(ls: seq<Line>, table: int, batch: int, now: int)
    requires CountIn(ls, AtTable(table), Carrinho) == 0
    ensures Apply(Send(table, batch, now), ls) == ls
  {
    ApplyAt(Send(table, batch, now), ls);
    CountZeroIff(ls, AtTable(table), Carrinho);
  }

  // garcom_confirma

  lemma ConfirmSpec(ls: seq<Line>, table: int)
    ensures var r := Apply(Confirm(table), ls);
            && |r| == |ls|
            && (forall i :: 0 <= i < |ls| && ls[i].table == table && ls[i].status == Pronto ==>
                  r[i] == ls[i].(status := Entregue))
            && (forall i :: 0 <= i < |ls| && !(ls[i].table == table && ls[i].status == Pronto) ==>
                  r[i] == ls[i])
            && CountIn(r, AtTable(table), Pronto) == 0
  {
    ApplyAt(Confirm(table), ls);
    CountZeroIff(Apply(Confirm(table), ls), AtTable(table), Pronto);
  }

  // iniciar_preparo

  lemma StartPrepSpec(ls: seq<Line>, b: int)
    ensures var r := Apply(StartPrep(b), ls);
            && |r| == |ls|
            && (forall i :: 0 <= i < |ls| && ls[i].batch == Some(b) && ls[i].status == Pendente ==>
                  r[i] == ls[i].(status := Preparando))
            && (forall i :: 0 <= i < |ls| && !(ls[i].batch == Some(b) && ls[i].status == Pendente) ==>
                  r[i] == ls[i])
            && (forall i :: 0 <= i < |r| && r[i].batch == Some(b) ==> r[i].status != Pendente)
  {
    ApplyAt(StartPrep(b), ls);
  }

  // marcar_pronto and finalizar_entrega

  lemma MarkReadySpec(ls: seq<Line>, b: int)
    ensures var r := Apply(MarkReady(b), ls);
            && |r| == |ls|
            && (forall i :: 0 <= i < |r| ==> (r[i].batch == Some(b) <==> ls[i].batch == Some(b)))
            && (forall i :: 0 <= i < |r| && r[i].batch == Some(b) ==> r[i] == ls[i].(status := Pronto))
            && (forall i :: 0 <= i < |r| && ls[i].batch != Some(b) ==> r[i] == ls[i])
  {
    ApplyAt(MarkReady(b), ls);
  }

  lemma FinalizeSpec(ls: seq<Line>, b: int)
    ensures var r := Apply(Finalize(b), ls);
            && |r| == |ls|
            && (forall i :: 0 <= i < |r| ==> (r[i].batch == Some(b) <==> ls[i].batch == Some(b)))
            && (forall i :: 0 <= i < |r| && r[i].batch == Some(b) ==> r[i] == ls[i].(status := Entregue))
            && (forall i :: 0 <= i < |r| && ls[i].batch != Some(b) ==> r[i] == ls[i])
  {
    ApplyAt(Finalize(b), ls);
  }

  // ----- fechar_conta_post ------------------------------------------------

  /** `len(pedidos)`: the table's open lines. */
  function OpenCount(ls: seq<Line>, table: int): nat
  {
    if ls == [] then 0
    else OpenCount(ls[..|ls| - 1], table)
         + (if ls[|ls| - 1].table == table && IsOpen(ls[|ls| - 1].status) then 1 else 0)
  }

  /** `sum(p.preco for p in pedidos)`. */
  function Subtotal(ls: seq<Line>, table: int): real
  {
    if ls == [] then 0.0
    else Subtotal(ls[..|ls| - 1], table)
         + (if ls[|ls| - 1].table == table && IsOpen(ls[|ls| - 1].status) then ls[|ls| - 1].price else 0.0)
  }

  /** The service charge: a percentage of the subtotal when it was opted in, else nothing. */
  function ServiceCharge(subtotal: real, percent: real, optIn: bool): real
  {
    if optIn then subtotal * (percent / 100.0) else 0.0
  }

  /** The table after closing: nothing changes when it has no open line;
      otherwise the discount and the service charge are split evenly. */
  function Closed(ls: seq<Line>, table: int, payment: string, discount: real,
                  optIn: bool, percent: real, now: int): seq<Line>
  {
    var n := OpenCount(ls, table);
    if n == 0 then ls
    else Apply(Close(table, payment, discount / n as real,
                     ServiceCharge(Subtotal(ls, table), percent, optIn) / n as real, now), ls)
  }

  /** Sum of the discount and charge shares written on the lines that were open
      for the table before closing. */
  function SharesPaid(before: seq<Line>, after: seq<Line>, table: int): (real, real)
    requires |before| == |after|
  {
    if before == [] then (0.0, 0.0)
    else
      var prev := SharesPaid(before[..|before| - 1], after[..|after| - 1], table);
      var last := before[|before| - 1];
      if last.table == table && IsOpen(last.status)
      then (prev.0 + after[|after| - 1].discount, prev.1 + after[|after| - 1].charge)
      else prev
  }

  /** `k` equal shares of `x`, added up one by one. */
  function Times(k: nat, x: real): real
  {
    if k == 0 then 0.0 else Times(k - 1, x) + x
  }

  lemma {:induction false} TimesIsProduct(k: nat, x: real)
    ensures Times(k, x) == k as real * x
  {
    if k > 0 {
      TimesIsProduct(k - 1, x);
    }
  }

  /** `k` equal shares of `x` add back up to `x`. */
  lemma EqualSharesAddBack(k: nat, x: real)
    requires k > 0
    ensures Times(k, x / k as real) == x
  {
    TimesIsProduct(k, x / k as real);
  }

  lemma {:induction false} CloseShareTotals(ls: seq<Line>, table: int, payment: string,
                                           d: real, c: real, now: int)
    ensures SharesPaid(ls, Apply(Close(table, payment, d, c, now), ls), table)
            == (Times(OpenCount(ls, table), d), Times(OpenCount(ls, table), c))
  {
    var op := Close(table, payment, d, c, now);
    if ls != [] {
      var p := ls[..|ls| - 1];
      var a := Apply(op, ls);
      CloseShareTotals(p, table, payment, d, c, now);
      assert a[..|ls| - 1] == Apply(op, p);
    }
  }

  /** Closing writes Pago, the payment method, the closing time and an equal
      share of the discount and of the service charge on every open line of
      the table, and nothing else; the shares add back up to the discount and
      the charge. */
  lemma CloseSpec(ls: seq<Line>, table: int, payment: string, discount: real,
                  optIn: bool, percent: real, now: int)
    ensures var r := Closed(ls, table, payment, discount, optIn, percent, now);
            var n := OpenCount(ls, table);
            && |r| == |ls|
            && (n == 0 ==> r == ls)
            && (n > 0 ==>
                  && (forall i :: 0 <= i < |ls| && ls[i].table == table && IsOpen(ls[i].status) ==>
                        r[i] == ls[i].(status := Pago, stamp := now, payment := Some(payment),
                                       discount := discount / n as real,
                                       charge := ServiceCharge(Subtotal(ls, table), percent, optIn) / n as real))
                  && (forall i :: 0 <= i < |ls| && !(ls[i].table == table && IsOpen(ls[i].status)) ==>
                        r[i] == ls[i]))
  {
    var n := OpenCount(ls, table);
    if n > 0 {
      var d := discount / n as real;
      var c := ServiceCharge(Subtotal(ls, table), percent, optIn) / n as real;
      ApplyAt(Close(table, payment, d, c, now), ls);
    }
  }

  lemma CloseSharesSumBack(ls: seq<Line>, table: int, payment: string, discount: real,
                           optIn: bool, percent: real, now: int)
    requires OpenCount(ls, table) > 0
    ensures SharesPaid(ls, Closed(ls, table, payment, discount, optIn, percent, now), table)
            == (discount, ServiceCharge(Subtotal(ls, table), percent, optIn))
  {
    var n := OpenCount(ls, table) as real;
    var charge := ServiceCharge(Subtotal(ls, table), percent, optIn);
    CloseShareTotals(ls, table, payment, discount / n, charge / n, now);
    EqualSharesAddBack(OpenCount(ls, table), discount);
    EqualSharesAddBack(OpenCount(ls, table), charge);
  }

  /** After closing, the table has no open line left. */
  lemma {:induction false} ClosedLeavesNothingOpen(ls: seq<Line>, table: int, payment: string,
                                                   d: real, c: real, now: int)
    ensures OpenCount(Apply(Close(table, payment, d, c, now), ls), table) == 0
  {
    if ls != [] {
      var op := Close(table, payment, d, c, now);
      ClosedLeavesNothingOpen(ls[..|ls| - 1], table, payment, d, c, now);
      ApplyAt(op, ls);
      assert Apply(op, ls)[..|ls| - 1] == Apply(op, ls[..|ls| - 1]);
    }
  }
}
