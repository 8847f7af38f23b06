/** The JSON endpoints the screens poll every few seconds. Each returns a
    "signature": status counts joined with `-`, which a screen compares with
    the previous one to decide whether to reload, plus a flag that rings the
    bell; and the list of tables that have something ready. */
module Polling {
  import opened Text
  import opened Orders

  /** `str(c)` of each count. */
  function Texts(counts: seq<nat>): (ts: seq<string>)
    ensures |ts| == |counts|
    ensures forall i :: 0 <= i < |ts| ==> ts[i] == NatText(counts[i])
  {
    if counts == [] then [] else [NatText(counts[0])] + Texts(counts[1..])
  }

  /** `f"{c1}-{c2}-…"`: the counts as one signature string. */
  function Fingerprint(counts: seq<nat>): string
  {
    Join(Texts(counts), '-')
  }

  /** Reads every piece back as a count; None when a piece is not a number. */
  function ParseAll(parts: seq<string>): Option<seq<nat>>
  {
    if parts == [] then Some([])
    else if parts[0] == [] || !IsDigits(parts[0]) then None
    else match ParseAll(parts[1..])
      case None => None
      case Some(ns) => Some([ParseNat(parts[0])] + ns)
  }

  /** What a client can recover from a signature: split on `-`, read the numbers. */
  function ParseFingerprint(s: string): Option<seq<nat>>
  {
    ParseAll(Split(s, '-'))
  }

  lemma {:induction false} ParseTexts(counts: seq<nat>)
    ensures ParseAll(Texts(counts)) == Some(counts)
  {
    if counts != [] {
      ParseTexts(counts[1..]);
      ParseNatText(counts[0]);
      assert Texts(counts)[1..] == Texts(counts[1..]);
      assert [counts[0]] + counts[1..] == counts;
    }
  }

  /** A signature of one or more counts parses back to exactly those counts. */
  lemma FingerprintRoundTrip(counts: seq<nat>)
    requires |counts| >= 1
    ensures ParseFingerprint(Fingerprint(counts)) == Some(counts)
  {
    var ts := Texts(counts);
    forall i | 0 <= i < |ts|
      ensures '-' !in ts[i]
    {
      DigitsWithoutDash(ts[i]);
    }
    SplitJoin(ts, '-');
    ParseTexts(counts);
  }

  /** Equal signatures mean equal counts, so no change of a count goes unseen. */
  lemma FingerprintInjective(a: seq<nat>, b: seq<nat>)
    requires |a| >= 1 && |b| >= 1 && Fingerprint(a) == Fingerprint(b)
    ensures a == b
  {
    FingerprintRoundTrip(a);
    FingerprintRoundTrip(b);
  }

  // ----- api_status_mesa --------------------------------------------------

  /** Pendente, Preparando, Pronto and Entregue counts of one table. */
  function TableCounts(ls: seq<Line>, table: int): seq<nat>
  {
    [CountIn(ls, AtTable(table), Pendente), CountIn(ls, AtTable(table), Preparando),
     CountIn(ls, AtTable(table), Pronto), CountIn(ls, AtTable(table), Entregue)]
  }

  /** The waiter's signature for a table and `tem_pronto`. */
  function TableStatus(ls: seq<Line>, table: int): (r: (string, bool))
    ensures ParseFingerprint(r.0) == Some(TableCounts(ls, table))
    ensures r.1 <==> exists i :: 0 <= i < |ls| && ls[i].table == table && ls[i].status == Pronto
  {
    FingerprintRoundTrip(TableCounts(ls, table));
    CountZeroIff(ls, AtTable(table), Pronto);
    (Fingerprint(TableCounts(ls, table)), CountIn(ls, AtTable(table), Pronto) > 0)
  }

  // ----- api_checar_novos_pedidos -----------------------------------------

  /** Pendente, Preparando and Pronto counts of the whole restaurant. */
  function KitchenCounts(ls: seq<Line>): seq<nat>
  {
    [CountIn(ls, Everywhere, Pendente), CountIn(ls, Everywhere, Preparando),
     CountIn(ls, Everywhere, Pronto)]
  }

  /** The kitchen's signature and `som_alert`. */
  function KitchenCheck(ls: seq<Line>): (r: (string, bool))
    ensures ParseFingerprint(r.0) == Some(KitchenCounts(ls))
    ensures r.1 <==> exists i :: 0 <= i < |ls| && ls[i].status == Pendente
  {
    FingerprintRoundTrip(KitchenCounts(ls));
    CountZeroIff(ls, Everywhere, Pendente);
    (Fingerprint(KitchenCounts(ls)), CountIn(ls, Everywhere, Pendente) > 0)
  }

  // ----- api_admin_stats --------------------------------------------------

  /** Pendente, Preparando, Pronto and Entregue counts of the whole restaurant. */
  function AdminCounts(ls: seq<Line>): seq<nat>
  {
    [CountIn(ls, Everywhere, Pendente), CountIn(ls, Everywhere, Preparando),
     CountIn(ls, Everywhere, Pronto), CountIn(ls, Everywhere, Entregue)]
  }

  /** `func.sum(Pedido.preco)` over the open lines, 0 when there is none. */
  function OpenTotal(ls: seq<Line>): real
  {
    if ls == [] then 0.0
    else OpenTotal(ls[..|ls| - 1])
         + (if IsOpen(ls[|ls| - 1].status) then ls[|ls| - 1].price else 0.0)
  }

  /** The admin's signature: the four counts, and the open total that the
      endpoint appends to them as a fifth piece. */
  function AdminStats(ls: seq<Line>): (r: (string, real))
    ensures ParseFingerprint(r.0) == Some(AdminCounts(ls))
    ensures r.1 == OpenTotal(ls)
  {
    FingerprintRoundTrip(AdminCounts(ls));
    (Fingerprint(AdminCounts(ls)), OpenTotal(ls))
  }

  /** Sending a cart moves every cart line of the table to Pendente or Entregue. */
  lemma {:induction false} SendCounts(ls: seq<Line>, table: int, batch: int, now: int, scope: Scope)
    requires scope == Everywhere || scope == AtTable(table)
    ensures var r := Apply(Send(table, batch, now), ls);
            CountIn(r, scope, Pendente) + CountIn(r, scope, Entregue)
            == CountIn(ls, scope, Pendente) + CountIn(ls, scope, Entregue)
               + CountIn(ls, AtTable(table), Carrinho)
  {
    if ls != [] {
      var op := Send(table, batch, now);
      var r := Apply(op, ls);
      SendCounts(ls[..|ls| - 1], table, batch, now, scope);
      assert r[..|r| - 1] == Apply(op, ls[..|ls| - 1]);
    }
  }

  /** Sending a non-empty cart always changes the table's signature and the
      admin's, even when every item is a drink that skips the kitchen. */
  lemma SendIsVisible(ls: seq<Line>, table: int, batch: int, now: int)
    requires CountIn(ls, AtTable(table), Carrinho) > 0
    ensures var r := Apply(Send(table, batch, now), ls);
            TableStatus(r, table).0 != TableStatus(ls, table).0
            && AdminStats(r).0 != AdminStats(ls).0
  {
    var r := Apply(Send(table, batch, now), ls);
    SendCounts(ls, table, batch, now, AtTable(table));
    SendCounts(ls, table, batch, now, Everywhere);
    assert TableCounts(r, table) != TableCounts(ls, table);
    assert AdminCounts(r) != AdminCounts(ls);
  }

  // ----- api_mesas_prontas ------------------------------------------------

  /** The tables with a Pronto line, each once, in the order they first appear. */
  function ReadyTables(ls: seq<Line>): (r: seq<int>)
    ensures forall i, j :: 0 <= i < j < |r| ==> r[i] != r[j]
    ensures forall t :: t in r <==> exists k :: 0 <= k < |ls| && ls[k].status == Pronto && ls[k].table == t
  {
    if ls == [] then []
    else
      var r := ReadyTables(ls[..|ls| - 1]);
      var l := ls[|ls| - 1];
      if l.status == Pronto && l.table !in r then r + [l.table] else r
  }

  /** A table is listed as ready exactly when its own signature says `tem_pronto`. */
  lemma ReadyTablesAgree(ls: seq<Line>, table: int)
    ensures table in ReadyTables(ls) <==> TableStatus(ls, table).1
  {
  }
}
