/** The kitchen screen (the `cozinha` view): the lines still waiting for the
    kitchen, in the order the query returns them, gathered into one ticket
    per batch. A ticket's header is copied from the first line of its batch. */
module Kitchen {
  import opened Orders
  import opened Grouping

  /** One ticket: the batch, the header (`mesa`, `cliente`, `hora`, `status`)
      and the lines of the batch. */
  datatype Ticket = Ticket(batch: Option<int>, table: int, customer: string, stamp: int,
                           status: Status, items: seq<Line>)

  function BatchOf(l: Line): Option<int>
  {
    l.batch
  }

  /** The lines the kitchen query selects (Pendente, Preparando, Pronto), in table order. */
  function KitchenLines(ls: seq<Line>): (r: seq<Line>)
    ensures forall l :: l in r <==> l in ls && InKitchen(l.status)
  {
    if ls == [] then []
    else
      var l := ls[|ls| - 1];
      assert ls == ls[..|ls| - 1] + [l];
      KitchenLines(ls[..|ls| - 1]) + (if InKitchen(l.status) then [l] else [])
  }

  /** `order_by(Pedido.data_hora)`: oldest first. */
  predicate SortedByStamp(rows: seq<Line>)
  {
    forall i, j :: 0 <= i < j < |rows| ==> rows[i].stamp <= rows[j].stamp
  }

  /** A possible result of the kitchen query: the kitchen lines of `ls`, each
      once, oldest first (the order among equal times is the database's). */
  predicate IsKitchenQuery(ls: seq<Line>, rows: seq<Line>)
  {
    multiset(rows) == multiset(KitchenLines(ls)) && SortedByStamp(rows)
  }

  function TicketOf(b: Bucket<Line, Option<int>>): Ticket
  {
    Ticket(b.key, b.head.table, b.head.customer, b.head.stamp, b.head.status, b.members)
  }

  /** `list(comandas.values())` for the dictionary the kitchen loop fills. */
  function Tickets(rows: seq<Line>): (ts: seq<Ticket>)
    ensures |ts| == |Grouped(rows, BatchOf)|
  {
    var bs := Grouped(rows, BatchOf);
    seq(|bs|, j requires 0 <= j < |bs| => TicketOf(bs[j]))
  }

  /** One ticket per batch, and every line's batch has one. */
  lemma TicketsPerBatch(rows: seq<Line>)
    ensures var ts := Tickets(rows);
            && (forall i, j :: 0 <= i < j < |ts| ==> ts[i].batch != ts[j].batch)
            && (forall k :: 0 <= k < |rows| ==> exists j :: 0 <= j < |ts| && ts[j].batch == rows[k].batch)
  {
    var bs := Grouped(rows, BatchOf);
    GroupedDistinct(rows, BatchOf);
    GroupedKeys(rows, BatchOf);
    forall k | 0 <= k < |rows|
      ensures exists j :: 0 <= j < |bs| && Tickets(rows)[j].batch == rows[k].batch
    {
      assert HasKey(bs, BatchOf(rows[k]));
      var j :| 0 <= j < |bs| && bs[j].key == rows[k].batch;
      assert Tickets(rows)[j].batch == rows[k].batch;
    }
  }

  /** A ticket holds exactly the lines of its batch, in query order. */
  lemma TicketsItems(rows: seq<Line>)
    ensures var ts := Tickets(rows);
            && (forall j :: 0 <= j < |ts| ==> ts[j].items == Filter(rows, BatchOf, ts[j].batch) && ts[j].items != [])
            && (forall j, l :: 0 <= j < |ts| ==> (l in ts[j].items <==> l in rows && l.batch == ts[j].batch))
  {
    var ts := Tickets(rows);
    GroupedMembers(rows, BatchOf);
    forall j | 0 <= j < |ts|
      ensures forall l :: l in ts[j].items <==> l in rows && l.batch == ts[j].batch
    {
      FilterMembers(rows, BatchOf, ts[j].batch);
    }
  }

  /** A ticket's header is its batch's first line's. */
  lemma TicketsHeaders(rows: seq<Line>)
    ensures var ts := Tickets(rows);
            forall j :: 0 <= j < |ts| ==>
              var f := FirstIndex(rows, BatchOf, ts[j].batch);
              && f < |rows|
              && ts[j].table == rows[f].table && ts[j].customer == rows[f].customer
              && ts[j].stamp == rows[f].stamp && ts[j].status == rows[f].status
  {
    GroupedHeads(rows, BatchOf);
  }

  /** Tickets come in the order their batches first appear; on rows sorted
      by time, their times never go back. */
  lemma TicketsOrder(rows: seq<Line>)
    ensures var ts := Tickets(rows);
            && (forall i, j :: 0 <= i < j < |ts| ==>
                  FirstIndex(rows, BatchOf, ts[i].batch) < FirstIndex(rows, BatchOf, ts[j].batch))
            && (SortedByStamp(rows) ==> forall i, j :: 0 <= i < j < |ts| ==> ts[i].stamp <= ts[j].stamp)
  {
    GroupedOrder(rows, BatchOf);
    TicketsHeaders(rows);
  }

  /** The loop that fills `comandas`, then `list(comandas.values())`. */
  method KitchenTickets(rows: seq<Line>) returns (tickets: seq<Ticket>)
    ensures tickets == Tickets(rows)
  {
    var bs := GroupBy(rows, BatchOf);
    tickets := [];
    for j := 0 to |bs|
      invariant |tickets| == j
      invariant forall m :: 0 <= m < j ==> tickets[m] == TicketOf(bs[m])
    {
      tickets := tickets + [TicketOf(bs[j])];
    }
  }

  /** On a result of the kitchen query, every line the kitchen has to handle
      is on the ticket of its own batch and on no other ticket. */
  lemma KitchenLineOnItsTicket(ls: seq<Line>, rows: seq<Line>, l: Line)
    requires IsKitchenQuery(ls, rows)
    requires l in ls && InKitchen(l.status)
    ensures var ts := Tickets(rows);
            && (exists j :: 0 <= j < |ts| && l in ts[j].items)
            && (forall j :: 0 <= j < |ts| && l in ts[j].items ==> ts[j].batch == l.batch)
  {
    var ts := Tickets(rows);
    TicketsPerBatch(rows);
    TicketsItems(rows);
    assert l in multiset(KitchenLines(ls));
    assert l in rows;
    var k :| 0 <= k < |rows| && rows[k] == l;
    var j :| 0 <= j < |ts| && ts[j].batch == rows[k].batch;
    assert l in ts[j].items;
  }
}
