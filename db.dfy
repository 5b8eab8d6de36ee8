/**
 * The persistence sink: the `feed` table seen as a map from `link` (the
 * column the batch insert's ON CONFLICT clause names) to the stored row,
 * the effect of each SQL statement on it, and the three loops that turn a
 * buffered batch into one multi-row INSERT.
 */
module Db {
  import opened Feed
  import opened SqlText
  import SqlTextProofs
  import Seqs

  datatype Option<T> = None | Some(value: T)

  /** Why a statement did not change the table. */
  datatype Error =
    | StoreError            // the connection or Postgres refused the statement
    | ParameterMismatch     // the arguments do not fit the statement's placeholders
    | CardinalityViolation  // one INSERT .. ON CONFLICT would touch the same link twice
    | UniqueViolation       // an UPDATE would leave two rows with one link

  datatype Result<T> = Ok(value: T) | Err(error: Error)

  /** One row of `feed`, its columns in the order the INSERT lists them. */
  datatype Row = Row(
    time: string,
    md5: string,
    sourceName: string,
    parsed: bool,
    title: string,
    description: string,
    fullText: string,
    link: string,
    enclosure: string,
    category: string)

  type Table = map<string, Row>

  /** `link` is unique in `feed`: every row sits under its own link. */
  ghost predicate KeyedByLink(t: Table)
  {
    forall l :: l in t ==> t[l].link == l
  }

  /** A statement argument: the item's text fields and the literal `false`. */
  datatype Value = Text(text: string) | Flag(flag: bool)

  /** The row an item becomes when it is inserted: it is not parsed yet. */
  function NewRow(item: Item): Row
  {
    Row(item.pubDate, item.md5, item.name, false, item.title, item.description,
        item.fullText, item.link, item.enclosure, item.category)
  }

  /** How Postgres binds ten consecutive arguments to the ten columns of a row. */
  function DecodeRow(args: seq<Value>): Option<Row>
  {
    if |args| == 10 && args[0].Text? && args[1].Text? && args[2].Text? && args[3].Flag?
       && args[4].Text? && args[5].Text? && args[6].Text? && args[7].Text? && args[8].Text?
       && args[9].Text?
    then Some(Row(args[0].text, args[1].text, args[2].text, args[3].flag, args[4].text,
                  args[5].text, args[6].text, args[7].text, args[8].text, args[9].text))
    else None
  }

  /** The ten arguments one item contributes, in the column order of the INSERT. */
  function RowArgs(item: Item): (args: seq<Value>)
    ensures |args| == 10
    ensures DecodeRow(args) == Some(NewRow(item))
  {
    [Text(item.pubDate), Text(item.md5), Text(item.name), Flag(false), Text(item.title),
     Text(item.description), Text(item.fullText), Text(item.link), Text(item.enclosure),
     Text(item.category)]
  }

  /** The flat argument list for a sequence of items. */
  function Args(items: seq<Item>): seq<Value>
  {
    if items == [] then [] else Args(items[..|items| - 1]) + RowArgs(items[|items| - 1])
  }

  /** Cuts a flat argument list into rows of ten. */
  function DecodeRows(values: seq<Value>): Option<seq<Row>>
  {
    if values == [] then Some([])
    else if |values| < 10 then None
    else
      match (DecodeRows(values[..|values| - 10]), DecodeRow(values[|values| - 10..]))
      case (Some(rows), Some(row)) => Some(rows + [row])
      case _ => None
  }

  function NewRows(items: seq<Item>): (rows: seq<Row>)
    ensures |rows| == |items|
    ensures forall i :: 0 <= i < |items| ==> rows[i] == NewRow(items[i])
  {
    if items == [] then [] else NewRows(items[..|items| - 1]) + [NewRow(items[|items| - 1])]
  }

  predicate DistinctLinks(rows: seq<Row>)
  {
    forall i, j :: 0 <= i < j < |rows| ==> rows[i].link != rows[j].link
  }

  /** `ON CONFLICT (link) DO UPDATE SET` title, description, full_text, category `= EXCLUDED.*`. */
  function Refreshed(existing: Row, excluded: Row): Row
  {
    existing.(title := excluded.title, description := excluded.description,
              fullText := excluded.fullText, category := excluded.category)
  }

  /** One row of the INSERT: a new link is inserted, a known link is refreshed. */
  function UpsertRow(t: Table, r: Row): Table
  {
    if r.link in t then t[r.link := Refreshed(t[r.link], r)] else t[r.link := r]
  }

  /**
   * `t'` keeps every row of `t` under its link, with at most the four
   * conflict columns changed: an INSERT never deletes a row, and never
   * touches the identity columns of a stored one.
   */
  ghost predicate KeepsStored(t: Table, t': Table)
  {
    forall l :: l in t ==> l in t' && t'[l] == Refreshed(t[l], t'[l])
  }

  function UpsertRows(t: Table, rows: seq<Row>): (r: Table)
    ensures KeepsStored(t, r)
  {
    if rows == [] then t else UpsertRow(UpsertRows(t, rows[..|rows| - 1]), rows[|rows| - 1])
  }

  /**
   * What executing a multi-row `INSERT .. ON CONFLICT (link) DO UPDATE` does
   * to the table, for statements whose placeholders are $1..$N in order.
   * Postgres refuses such a statement when two of its rows share a link.
   */
  function ExecInsert(t: Table, query: string, values: seq<Value>): (r: Result<Table>)
    ensures r.Err? ==> r.error == ParameterMismatch || r.error == CardinalityViolation
    ensures r.Ok? ==> KeepsStored(t, r.value)
  {
    if Placeholders(query) != seq(|values|, j => j + 1) then Err(ParameterMismatch)
    else
      match DecodeRows(values)
      case None => Err(ParameterMismatch)
      case Some(rows) => if DistinctLinks(rows) then Ok(UpsertRows(t, rows)) else Err(CardinalityViolation)
  }

  /**
   * The map the batch insert fills in arrival order: an item overwrites
   * every earlier item with the same link.
   */
  function LastByLink(items: seq<Item>): (m: map<string, Item>)
    ensures forall l :: l in m ==> m[l].link == l
  {
    if items == [] then map[]
    else LastByLink(items[..|items| - 1])[items[|items| - 1].link := items[|items| - 1]]
  }

  /**
   * The order-free effect of upserting a deduplicated batch: new links get a
   * full row, known links get four refreshed columns, other rows stay.
   */
  function UpsertEffect(t: Table, batch: map<string, Item>): (r: Table)
    ensures r.Keys == t.Keys + batch.Keys
    ensures forall l :: l in batch && l !in t ==> r[l] == NewRow(batch[l])
    ensures forall l :: l in batch && l in t ==>
      r[l] == t[l].(title := batch[l].title, description := batch[l].description,
                    fullText := batch[l].fullText, category := batch[l].category)
    ensures forall l :: l in t && l !in batch ==> r[l] == t[l]
  {
    map l | l in t.Keys + batch.Keys ::
      if l in batch then (if l in t then Refreshed(t[l], NewRow(batch[l])) else NewRow(batch[l]))
      else t[l]
  }

  /** The table after a successful `InsertBatch(items)`. */
  function BatchEffect(t: Table, items: seq<Item>): (r: Table)
    ensures r.Keys == t.Keys + Links(items)
    ensures forall l :: l in t && l !in Links(items) ==> r[l] == t[l]
    ensures KeepsStored(t, r)
  {
    DedupKeys(items);
    UpsertEffect(t, LastByLink(items))
  }

  /** `UPDATE feed SET title, description, full_text, link, enclosure, category`. */
  function Updated(r: Row, item: Item): Row
  {
    r.(title := item.title, description := item.description, fullText := item.fullText,
       link := item.link, enclosure := item.enclosure, category := item.category)
  }

  /** The links of the rows an `UPDATE .. WHERE md5 = key` addresses. */
  function Matching(t: Table, key: string): set<string>
  {
    set l | l in t && t[l].md5 == key
  }

  /**
   * What `UPDATE .. WHERE md5 = item.md5` does to the table. Every matching
   * row takes the item's link, so two matches, or a match whose new link
   * another row already holds, break the uniqueness of `link`.
   */
  function UpdateEffect(t: Table, item: Item): (r: Result<Table>)
    ensures r.Err? ==> r.error == UniqueViolation && Matching(t, item.md5) != {}
    ensures r.Ok? ==> forall l :: l in t && t[l].md5 != item.md5 ==> l in r.value && r.value[l] == t[l]
  {
    var hits := Matching(t, item.md5);
    if hits == {} then Ok(t)
    else if |hits| > 1 then Err(UniqueViolation)
    else
      var l := OnlyElement(hits);
      if item.link in t && item.link != l then Err(UniqueViolation)
      else Ok((t - {l})[item.link := Updated(t[l], item)])
  }

  function OnlyElement(s: set<string>): (x: string)
    requires |s| == 1
    ensures s == {x}
  {
    var x :| x in s;
    assert s == {x} by {
      assert |s - {x}| == 0;
    }
    x
  }

  // ---------------------------------------------------------------------
  // Deduplication

  /** No later item of `items` has the link of item `i`. */
  ghost predicate IsLastWithLink(items: seq<Item>, i: int)
    requires 0 <= i < |items|
  {
    forall j :: i < j < |items| ==> items[j].link != items[i].link
  }

  lemma LinksSnoc(items: seq<Item>)
    requires items != []
    ensures Links(items) == Links(items[..|items| - 1]) + {items[|items| - 1].link}
  {
    var p := items[..|items| - 1];
    forall l | l in Links(p) ensures l in Links(items) {
      var i :| 0 <= i < |p| && p[i].link == l;
      assert items[i].link == l;
    }
  }

  /** Deduplication keeps exactly the links of the input. */
  lemma {:induction false} DedupKeys(items: seq<Item>)
    ensures LastByLink(items).Keys == Links(items)
  {
    if items != [] {
      DedupKeys(items[..|items| - 1]);
      LinksSnoc(items);
    }
  }

  /** The item kept for a link is the last one with that link (last write wins). */
  lemma {:induction false} DedupLastWins(items: seq<Item>)
    ensures forall i :: 0 <= i < |items| && IsLastWithLink(items, i) ==>
      items[i].link in LastByLink(items) && LastByLink(items)[items[i].link] == items[i]
  {
    if items != [] {
      var n := |items| - 1;
      var p := items[..n];
      DedupLastWins(p);
      var m := LastByLink(items);
      assert m == LastByLink(p)[items[n].link := items[n]];
      forall i | 0 <= i < |items| && IsLastWithLink(items, i)
        ensures items[i].link in m && m[items[i].link] == items[i]
      {
        if i < n {
          assert items[i] == p[i];
          assert IsLastWithLink(p, i);
          assert items[i].link != items[n].link;
          assert m[items[i].link] == LastByLink(p)[p[i].link];
        } else {
          assert m[items[n].link] == items[n];
        }
      }
    }
  }

  /**
   * After deduplication every input link occurs once, no other link occurs,
   * and the item kept for a link is the last one with that link.
   */
  lemma DedupKeepsLast(items: seq<Item>)
    ensures LastByLink(items).Keys == Links(items)
    ensures forall l :: l in LastByLink(items) ==> LastByLink(items)[l].link == l
    ensures forall i :: 0 <= i < |items| && IsLastWithLink(items, i) ==>
      LastByLink(items)[items[i].link] == items[i]
  {
    DedupKeys(items);
    DedupLastWins(items);
  }

  /** Deduplicating a non-empty batch leaves a non-empty batch. */
  lemma DedupNonEmpty(items: seq<Item>)
    requires items != []
    ensures |LastByLink(items)| > 0
  {
    DedupKeepsLast(items);
    assert items[0].link in Links(items);
  }

  // ---------------------------------------------------------------------
  // The argument list

  /** Row `i` of the statement is bound to arguments 10i+1..10i+10, the columns of item `i`. */
  lemma {:induction false} ArgsLayout(items: seq<Item>, i: nat)
    requires i < |items|
    ensures |Args(items)| == 10 * |items|
    ensures Args(items)[10 * i..10 * i + 10] == RowArgs(items[i])
  {
    var n := |items| - 1;
    ArgsLength(items[..n]);
    var front, last := Args(items[..n]), RowArgs(items[n]);
    assert Args(items) == front + last;
    var lo := 10 * i;
    if i < n {
      ArgsLayout(items[..n], i);
      assert items[..n][i] == items[i];
      assert front[lo..lo + 10] == RowArgs(items[i]);
      Seqs.SliceOfFront(front, last, lo, lo + 10);
    } else {
      assert |front| == lo && |last| == 10;
      Seqs.SliceOfBack(front, last);
    }
  }

  lemma ArgsSnoc(items: seq<Item>, x: Item)
    ensures Args(items + [x]) == Args(items) + RowArgs(x)
  {
    assert (items + [x])[..|items|] == items;
  }

  lemma {:induction false} ArgsLength(items: seq<Item>)
    ensures |Args(items)| == 10 * |items|
  {
    if items != [] {
      ArgsLength(items[..|items| - 1]);
    }
  }

  /** Binding the flat argument list back to rows gives one fresh row per item. */
  lemma {:induction false} ArgsDecode(items: seq<Item>)
    ensures DecodeRows(Args(items)) == Some(NewRows(items))
  {
    if items != [] {
      var n := |items| - 1;
      var values := Args(items);
      ArgsDecode(items[..n]);
      ArgsLength(items[..n]);
      assert values[..|values| - 10] == Args(items[..n]);
      assert values[|values| - 10..] == RowArgs(items[n]);
    }
  }

  // ---------------------------------------------------------------------
  // The upsert

  /** Upserting one more fresh link on top of a batch is the batch with that item added. */
  lemma UpsertStep(t: Table, batch: map<string, Item>, x: Item)
    requires x.link !in batch
    ensures UpsertRow(UpsertEffect(t, batch), NewRow(x)) == UpsertEffect(t, batch[x.link := x])
  {
    var lhs, rhs := UpsertRow(UpsertEffect(t, batch), NewRow(x)), UpsertEffect(t, batch[x.link := x]);
    assert lhs.Keys == rhs.Keys;
    forall k | k in lhs ensures lhs[k] == rhs[k] {
      if k != x.link {
        assert lhs[k] == UpsertEffect(t, batch)[k];
      }
    }
  }

  /**
   * Executing the rows one after another, in any order, has the effect of
   * the order-free upsert, as long as no two rows share a link.
   */
  lemma {:induction false} UpsertRowsIsEffect(t: Table, items: seq<Item>)
    requires DistinctLinks(NewRows(items))
    ensures UpsertRows(t, NewRows(items)) == UpsertEffect(t, LastByLink(items))
  {
    if items != [] {
      var n := |items| - 1;
      var p := items[..n];
      assert NewRows(items)[..n] == NewRows(p);
      assert DistinctLinks(NewRows(p));
      UpsertRowsIsEffect(t, p);
      DedupKeepsLast(p);
      forall i | 0 <= i < |p| ensures p[i].link != items[n].link {
        assert NewRows(items)[i].link == p[i].link;
      }
      assert items[n].link !in LastByLink(p);
      UpsertStep(t, LastByLink(p), items[n]);
    }
  }

  /** A sequence that lists every entry of a link-keyed map once. */
  ghost predicate Enumerates(finalItems: seq<Item>, unique: map<string, Item>)
  {
    && |finalItems| == |unique.Keys|
    && Links(finalItems) == unique.Keys
    && (forall i :: 0 <= i < |finalItems| ==> finalItems[i].link in unique && unique[finalItems[i].link] == finalItems[i])
    && (forall i, j :: 0 <= i < j < |finalItems| ==> finalItems[i].link != finalItems[j].link)
  }

  /** Deduplicating an enumeration of a link-keyed map gives the map back. */
  lemma EnumerationDedup(finalItems: seq<Item>, unique: map<string, Item>)
    requires Enumerates(finalItems, unique)
    ensures LastByLink(finalItems) == unique
  {
    DedupKeepsLast(finalItems);
    var m := LastByLink(finalItems);
    forall l | l in m ensures m[l] == unique[l] {
      var i :| 0 <= i < |finalItems| && finalItems[i].link == l;
      assert IsLastWithLink(finalItems, i);
    }
  }

  /**
   * The statement the batch insert builds from an enumeration of the
   * deduplicated batch is accepted and has the effect of the batch.
   */
  lemma InsertStatementEffect(t: Table, items: seq<Item>, finalItems: seq<Item>)
    requires Enumerates(finalItems, LastByLink(items)) && |finalItems| > 0
    ensures ExecInsert(t, InsertQuery(|finalItems|), Args(finalItems)) == Ok(BatchEffect(t, items))
  {
    var query, values := InsertQuery(|finalItems|), Args(finalItems);
    ArgsLength(finalItems);
    SqlTextProofs.InsertQueryNumbering(|finalItems|);
    assert Placeholders(query) == seq(|values|, j => j + 1);
    ArgsDecode(finalItems);
    var rows := NewRows(finalItems);
    assert DistinctLinks(rows);
    ExecAccepted(t, query, values, rows);
    UpsertRowsIsEffect(t, finalItems);
    EnumerationDedup(finalItems, LastByLink(items));
  }

  lemma ExecAccepted(t: Table, query: string, values: seq<Value>, rows: seq<Row>)
    requires Placeholders(query) == seq(|values|, j => j + 1)
    requires DecodeRows(values) == Some(rows) && DistinctLinks(rows)
    ensures ExecInsert(t, query, values) == Ok(UpsertRows(t, rows))
  {
  }

  /**
   * The batch insert, stated against the input items: links not in the
   * batch keep their rows; for every other link the last item with it
   * either becomes a new, unparsed row, or refreshes title, description,
   * full_text and category of the stored row and nothing else.
   */
  lemma BatchEffectSpec(t: Table, items: seq<Item>)
    ensures BatchEffect(t, items).Keys == t.Keys + Links(items)
    ensures forall l :: l in t && l !in Links(items) ==> BatchEffect(t, items)[l] == t[l]
    ensures forall i :: 0 <= i < |items| && IsLastWithLink(items, i) && items[i].link !in t ==>
      BatchEffect(t, items)[items[i].link] == NewRow(items[i])
    ensures forall i :: 0 <= i < |items| && IsLastWithLink(items, i) && items[i].link in t ==>
      var old_ := t[items[i].link];
      BatchEffect(t, items)[items[i].link]
        == Row(old_.time, old_.md5, old_.sourceName, old_.parsed, items[i].title, items[i].description,
               items[i].fullText, old_.link, old_.enclosure, items[i].category)
  {
    DedupKeepsLast(items);
  }

  /** Delivering the same batch twice leaves the table as delivering it once. */
  lemma BatchIdempotent(t: Table, items: seq<Item>)
    ensures BatchEffect(BatchEffect(t, items), items) == BatchEffect(t, items)
  {
    var once := BatchEffect(t, items);
    var twice := BatchEffect(once, items);
    assert twice.Keys == once.Keys;
    forall l | l in once ensures twice[l] == once[l] {
    }
  }

  /** The upsert keeps every row under its own link. */
  lemma BatchKeyedByLink(t: Table, items: seq<Item>)
    requires KeyedByLink(t)
    ensures KeyedByLink(BatchEffect(t, items))
  {
    DedupKeepsLast(items);
  }

  lemma EmptyBatch(t: Table)
    ensures BatchEffect(t, []) == t
  {
  }

  /** Inserting one item is upserting its row. */
  lemma SingleInsert(t: Table, item: Item)
    ensures BatchEffect(t, [item]) == UpsertRow(t, NewRow(item))
  {
    assert LastByLink([item]) == map[item.link := item] by {
      assert [item][..0] == [];
    }
  }

  lemma LastByLinkSnoc(items: seq<Item>, x: Item)
    ensures LastByLink(items + [x]) == LastByLink(items)[x.link := x]
  {
    assert (items + [x])[..|items|] == items;
  }

  /**
   * Items A (old title), A (new title) and B, upserted into a table that has
   * neither link, leave exactly two new rows: A with the new title, and B.
   */
  lemma DuplicateInBatchScenario(t: Table, a1: Item, a2: Item, b: Item)
    requires a1.link == a2.link && a1.link != b.link
    requires a1.link !in t && b.link !in t
    ensures BatchEffect(t, [a1, a2, b]).Keys == t.Keys + {a1.link, b.link}
    ensures BatchEffect(t, [a1, a2, b])[a1.link] == NewRow(a2)
    ensures BatchEffect(t, [a1, a2, b])[b.link] == NewRow(b)
  {
    var items := [a1, a2, b];
    assert [] + [a1] == [a1] && [a1] + [a2] == [a1, a2] && [a1, a2] + [b] == items;
    LastByLinkSnoc([], a1);
    LastByLinkSnoc([a1], a2);
    LastByLinkSnoc([a1, a2], b);
    var m := map[a1.link := a2, b.link := b];
    assert LastByLink(items) == m;
    assert m.Keys == {a1.link, b.link};
  }

  // ---------------------------------------------------------------------
  // The update by md5

  /**
   * The update never fails for want of a row: no match leaves the table
   * as it is. It fails exactly when it would break the uniqueness of
   * `link`; otherwise the one matching row moves to the item's link with
   * six columns replaced, and every other row stays as it was.
   */
  lemma UpdateEffectSpec(t: Table, item: Item)
    requires KeyedByLink(t)
    ensures Matching(t, item.md5) == {} ==> UpdateEffect(t, item) == Ok(t)
    ensures UpdateEffect(t, item).Err? <==>
      (|Matching(t, item.md5)| > 1
       || (item.link in t && t[item.link].md5 != item.md5 && Matching(t, item.md5) != {}))
    ensures UpdateEffect(t, item).Ok? ==>
      var t' := UpdateEffect(t, item).value;
      && KeyedByLink(t')
      && t'.Keys == UpdatedKeys(t, item)
      && (forall l :: l in t && t[l].md5 != item.md5 ==> l in t' && t'[l] == t[l])
      && (forall l :: l in t' && l != item.link ==> l in t && t'[l] == t[l])
      && (forall l :: l in t && t[l].md5 == item.md5 ==>
            item.link in t' && t'[item.link] == Updated(t[l], item))
  {
    var hits := Matching(t, item.md5);
    if UpdateEffect(t, item).Ok? {
      UpdateKeys(t, item);
    }
    assert forall k :: k in t && t[k].md5 == item.md5 ==> k in hits;
    if |hits| == 1 {
      var l := OnlyElement(hits);
      if item.link in t && item.link != l {
        assert item.link !in hits;
      }
      forall k | k in t && t[k].md5 == item.md5 ensures k == l {
        assert k in hits;
      }
    }
  }

  /** The links after an update: the matched row's link is replaced by the item's. */
  function UpdatedKeys(t: Table, item: Item): set<string>
  {
    (t.Keys - Matching(t, item.md5)) + (if Matching(t, item.md5) == {} then {} else {item.link})
  }

  lemma UpdateKeys(t: Table, item: Item)
    requires UpdateEffect(t, item).Ok?
    ensures UpdateEffect(t, item).value.Keys == UpdatedKeys(t, item)
  {
    var hits := Matching(t, item.md5);
    if hits != {} {
      var l := OnlyElement(hits);
      assert hits == {l};
    }
  }

  /** Repeating an update that succeeded changes nothing. */
  lemma UpdateIdempotent(t: Table, item: Item)
    requires KeyedByLink(t) && UpdateEffect(t, item).Ok?
    ensures UpdateEffect(UpdateEffect(t, item).value, item) == UpdateEffect(t, item)
  {
    var hits := Matching(t, item.md5);
    var t' := UpdateEffect(t, item).value;
    if hits != {} {
      var l := OnlyElement(hits);
      assert Matching(t', item.md5) == {item.link};
      assert OnlyElement(Matching(t', item.md5)) == item.link;
      assert Updated(Updated(t[l], item), item) == Updated(t[l], item);
      assert (t' - {item.link})[item.link := Updated(t'[item.link], item)] == t';
    }
  }

  // ---------------------------------------------------------------------
  // The three loops of the batch insert

  /** The first loop: overwrite the map entry of each item's link in arrival order. */
  method Dedup(items: seq<Item>) returns (unique: map<string, Item>)
    ensures unique == LastByLink(items)
  {
    unique := map[];
    for i := 0 to |items|
      invariant unique == LastByLink(items[..i])
    {
      assert items[..i + 1][..i] == items[..i];
      unique := unique[items[i].link := items[i]];
    }
    assert items[..|items|] == items;
  }

  /** The loop invariant of Enumerate: the keys outside `rest` are listed once each. */
  ghost predicate EnumeratedExcept(finalItems: seq<Item>, unique: map<string, Item>, rest: set<string>)
  {
    && rest <= unique.Keys
    && |finalItems| + |rest| == |unique.Keys|
    && Links(finalItems) == unique.Keys - rest
    && (forall i :: 0 <= i < |finalItems| ==> finalItems[i].link in unique && unique[finalItems[i].link] == finalItems[i])
    && (forall i, j :: 0 <= i < j < |finalItems| ==> finalItems[i].link != finalItems[j].link)
  }

  lemma EnumerateStep(finalItems: seq<Item>, unique: map<string, Item>, rest: set<string>, l: string)
    requires forall k :: k in unique ==> unique[k].link == k
    requires EnumeratedExcept(finalItems, unique, rest) && l in rest
    ensures EnumeratedExcept(finalItems + [unique[l]], unique, rest - {l})
  {
    EnumerateStepKeys(finalItems, unique, rest, l);
    EnumerateStepEntries(finalItems, unique, l);
  }

  /** The key sets: `l` leaves `rest` and joins the listed links. */
  lemma EnumerateStepKeys(finalItems: seq<Item>, unique: map<string, Item>, rest: set<string>, l: string)
    requires l in unique && unique[l].link == l && l in rest && rest <= unique.Keys
    requires Links(finalItems) == unique.Keys - rest
    ensures |rest - {l}| == |rest| - 1
    ensures Links(finalItems + [unique[l]]) == unique.Keys - (rest - {l})
  {
    NewLinkListed(finalItems, unique[l]);
  }

  /** The entries: the listing stays a duplicate-free list of the map's entries. */
  lemma EnumerateStepEntries(finalItems: seq<Item>, unique: map<string, Item>, l: string)
    requires l in unique && unique[l].link == l && l !in Links(finalItems)
    requires forall i :: 0 <= i < |finalItems| ==> finalItems[i].link in unique && unique[finalItems[i].link] == finalItems[i]
    requires forall i, j :: 0 <= i < j < |finalItems| ==> finalItems[i].link != finalItems[j].link
    ensures forall i :: 0 <= i < |finalItems| + 1 ==>
      (finalItems + [unique[l]])[i].link in unique && unique[(finalItems + [unique[l]])[i].link] == (finalItems + [unique[l]])[i]
    ensures forall i, j :: 0 <= i < j < |finalItems| + 1 ==> (finalItems + [unique[l]])[i].link != (finalItems + [unique[l]])[j].link
  {
    var next := finalItems + [unique[l]];
    forall i | 0 <= i < |finalItems| ensures finalItems[i].link != l {
      assert finalItems[i].link in Links(finalItems);
    }
    forall i | 0 <= i < |next| ensures next[i].link in unique && unique[next[i].link] == next[i] {
      if i < |finalItems| {
        assert next[i] == finalItems[i];
      }
    }
    forall i, j | 0 <= i < j < |next| ensures next[i].link != next[j].link {
      assert next[i] == finalItems[i];
      if j < |finalItems| {
        assert next[j] == finalItems[j];
      }
    }
  }

  lemma NewLinkListed(items: seq<Item>, x: Item)
    ensures Links(items + [x]) == Links(items) + {x.link}
  {
    LinksSnoc(items + [x]);
    assert (items + [x])[..|items|] == items;
  }

  /**
   * The second loop: copy the map's entries into a slice. Go visits a map
   * in no fixed order, so each step takes any key not yet visited.
   */
  method Enumerate(unique: map<string, Item>) returns (finalItems: seq<Item>)
    requires forall l :: l in unique ==> unique[l].link == l
    ensures Enumerates(finalItems, unique)
  {
    finalItems := [];
    var rest := unique.Keys;
    while rest != {}
      invariant EnumeratedExcept(finalItems, unique, rest)
      decreases rest
    {
      var l :| l in rest;
      EnumerateStep(finalItems, unique, rest, l);
      finalItems := finalItems + [unique[l]];
      rest := rest - {l};
    }
  }

  /** One pass of the third loop extends the arguments by the ten of item `i`. */
  lemma ArgsStep(finalItems: seq<Item>, i: nat)
    requires i < |finalItems|
    ensures Args(finalItems[..i]) + RowArgs(finalItems[i]) == Args(finalItems[..i + 1])
  {
    assert finalItems[..i + 1] == finalItems[..i] + [finalItems[i]];
    ArgsSnoc(finalItems[..i], finalItems[i]);
  }

  /**
   * The third loop: one placeholder tuple and ten arguments per item, then
   * the trailing comma is cut and the conflict clause appended.
   */
  method BuildInsert(finalItems: seq<Item>) returns (query: string, values: seq<Value>)
    requires |finalItems| > 0
    ensures query == InsertQuery(|finalItems|)
    ensures values == Args(finalItems)
  {
    query := InsertHead;
    values := [];
    for i := 0 to |finalItems|
      invariant query == InsertHead + TuplesWithCommas(i)
      invariant values == Args(finalItems[..i])
    {
      var d := i * 10;
      SqlTextProofs.TuplesStep(InsertHead, i);
      ArgsStep(finalItems, i);
      query := query + RowTuple(d) + ",";
      values := values + RowArgs(finalItems[i]);
    }
    assert finalItems[..|finalItems|] == finalItems;
    SqlTextProofs.FinishQuery(InsertHead, |finalItems|, query);
    query := query[..|query| - 1] + "\n";
    query := query + ConflictClause;
  }

  // ---------------------------------------------------------------------
  // The sink

  /** The store as the pipeline sees it: the rows of `feed`. */
  class DB {
    var table: Table

    /** `link` stays unique, as the table's unique index keeps it. */
    ghost predicate Valid()
      reads this
    {
      KeyedByLink(table)
    }

    constructor (initial: Table)
      requires KeyedByLink(initial)
      ensures Valid() && table == initial
    {
      table := initial;
    }

    /**
     * Deduplicate by link, build one INSERT .. ON CONFLICT statement and run
     * it. `execOk` stands for whether the store accepts the statement; on
     * failure the table is unchanged and the error is returned.
     */
    method InsertBatch(items: seq<Item>, execOk: bool) returns (err: Option<Error>)
      requires Valid()
      modifies this
      ensures Valid()
      ensures err == None <==> (items == [] || execOk)
      ensures items == [] ==> table == old(table)
      ensures err != None ==> err == Some(StoreError) && table == old(table)
      ensures err == None ==> table == BatchEffect(old(table), items)
    {
      if |items| == 0 {
        EmptyBatch(table);
        return None;
      }
      var unique := Dedup(items);
      DedupKeepsLast(items);
      var finalItems := Enumerate(unique);
      DedupNonEmpty(items);
      // The source returns early here when nothing is left after
      // deduplication; a non-empty batch always leaves something.
      assert |finalItems| > 0;
      var query, values := BuildInsert(finalItems);
      if !execOk {
        return Some(StoreError);
      }
      InsertStatementEffect(table, items, finalItems);
      BatchKeyedByLink(table, items);
      var result := ExecInsert(table, query, values);
      match result {
        case Ok(t) =>
          table := t;
          err := None;
        case Err(e) =>
          err := Some(e);
      }
    }

    /** A single insert is a batch of one. */
    method Insert(item: Item, execOk: bool) returns (err: Option<Error>)
      requires Valid()
      modifies this
      ensures Valid()
      ensures err == None <==> execOk
      ensures err != None ==> table == old(table)
      ensures err == None ==> table == UpsertRow(old(table), NewRow(item))
    {
      err := InsertBatch([item], execOk);
      SingleInsert(old(table), item);
    }

    /**
     * Overwrite six columns of the rows whose md5 is the item's. A missing
     * row is not an error; only a refused statement is.
     */
    method UpdateByMD5(item: Item, execOk: bool) returns (err: Option<Error>)
      requires Valid()
      modifies this
      ensures Valid()
      ensures err == None <==> (execOk && UpdateEffect(old(table), item).Ok?)
      ensures err == None ==> table == UpdateEffect(old(table), item).value
      ensures err != None ==> table == old(table)
    {
      if !execOk {
        return Some(StoreError);
      }
      UpdateEffectSpec(table, item);
      match UpdateEffect(table, item) {
        case Ok(t) =>
          table := t;
          err := None;
        case Err(e) =>
          err := Some(e);
      }
    }
  }
}
