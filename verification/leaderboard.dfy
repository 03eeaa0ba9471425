/** The leaderboard of src/room/leaderboard.ts. Its `Map` is a list of
    entries in the map's iteration order (insertion order; `set` on an
    existing key keeps the key's place). Each record creation also
    registers a `'remove'` listener on the entity; `listening` holds the
    entities that have one. */
module Leaderboards {
  import opened Wrappers
  import opened Entities

  const MaxRecords := 10

  datatype Record = Record(title: string, score: real)

  datatype Entry = Entry(id: Id, record: Record)

  datatype Board = Board(scores: seq<Entry>, listening: set<Id>)

  const Empty := Board([], {})

  function Ids(es: seq<Entry>): (ids: set<Id>)
    ensures forall k :: k in ids <==> exists i :: 0 <= i < |es| && es[i].id == k
  {
    set i | 0 <= i < |es| :: es[i].id
  }

  /** No id has two entries: the entries are a map. */
  predicate Keyed(es: seq<Entry>) {
    forall i, j :: 0 <= i < j < |es| ==> es[i].id != es[j].id
  }

  /** The board's invariant: a map, and every record's entity has the
      listener that deletes it. */
  predicate Valid(b: Board) {
    Keyed(b.scores) && Ids(b.scores) <= b.listening
  }

  /** `scores.get(id)`. */
  function Lookup(es: seq<Entry>, k: Id): (r: Option<Record>)
    ensures r.Some? ==> Entry(k, r.value) in es
    ensures r.None? <==> k !in Ids(es)
  {
    if |es| == 0 then None
    else if es[0].id == k then Some(es[0].record)
    else
      var r := Lookup(es[1..], k);
      assert Ids(es) == {es[0].id} + Ids(es[1..]);
      r
  }

  /** In a map, the entry for an id is the one `get` returns. */
  lemma {:induction false} LookupIn(es: seq<Entry>, k: Id, r: Record)
    requires Keyed(es)
    ensures Lookup(es, k) == Some(r) <==> Entry(k, r) in es
  {
    if |es| > 0 {
      assert Keyed(es[1..]) by {
        forall i, j | 0 <= i < j < |es[1..]| ensures es[1..][i].id != es[1..][j].id {
          assert es[1..][i] == es[i + 1] && es[1..][j] == es[j + 1];
        }
      }
      LookupIn(es[1..], k, r);
    }
  }

  /** `scores.set(id, record)` for a key already present: the record is
      replaced in place. */
  function Replace(es: seq<Entry>, k: Id, r: Record): (es': seq<Entry>)
    ensures |es'| == |es|
    ensures forall i :: 0 <= i < |es| ==> es'[i].id == es[i].id
    ensures forall i :: 0 <= i < |es| ==> es'[i].record == (if es[i].id == k then r else es[i].record)
  {
    if |es| == 0 then []
    else [if es[0].id == k then Entry(k, r) else es[0]] + Replace(es[1..], k, r)
  }

  // ---------------------------------------------------------------------
  // update

  /** Only masters whose score is above their class's score are listed. */
  predicate Qualifies(e: Entity) {
    IsMaster(e) && e.score > e.setting.score
  }

  /** The record title: name, a dash, and the class label. */
  function TitleOf(e: Entity): string {
    e.name + " - " + e.setting.classLabel
  }

  /** What a new record holds: the title and the top master's score. */
  function Created(s: Store, id: Id): (r: Record)
    requires id in s && IsMaster(s[id])
  {
    Record(TitleOf(s[id]), s[TopMaster(s, id).value].score)
  }

  /** What an existing record is set to: the title and the entity's score. */
  function Refreshed(e: Entity): Record {
    Record(TitleOf(e), e.score)
  }

  /** A listed entity is its own top master, so a new record and a
      refreshed one hold the same values. */
  lemma CreatedIsRefreshed(s: Store, id: Id)
    requires id in s && IsMaster(s[id])
    ensures Created(s, id) == Refreshed(s[id])
  {
  }

  /** The body of the loop in `update` for one entity. */
  function Visit(b: Board, s: Store, id: Id): (b': Board)
    requires id in s
  {
    var e := s[id];
    if !Qualifies(e) then b
    else if id !in Ids(b.scores) then
      Board(b.scores + [Entry(id, Created(s, id))], b.listening + {id})
    else
      b.(scores := Replace(b.scores, id, Refreshed(e)))
  }

  /** The ids of a non-empty list: its head's and its tail's. */
  lemma IdsCons(es: seq<Entry>)
    requires |es| > 0
    ensures Ids(es) == {es[0].id} + Ids(es[1..])
  {
    forall k | k in Ids(es) ensures k in {es[0].id} + Ids(es[1..]) {
      var i :| 0 <= i < |es| && es[i].id == k;
      if i > 0 {
        assert es[1..][i - 1] == es[i];
      }
    }
    forall k | k in Ids(es[1..]) ensures k in Ids(es) {
      var i :| 0 <= i < |es[1..]| && es[1..][i].id == k;
      assert es[i + 1] == es[1..][i];
    }
  }

  /** The ids of a list with one more entry at the end. */
  lemma IdsSnoc(es: seq<Entry>, e: Entry)
    ensures Ids(es + [e]) == Ids(es) + {e.id}
  {
    forall k | k in Ids(es + [e]) ensures k in Ids(es) + {e.id} {
      var i :| 0 <= i < |es + [e]| && (es + [e])[i].id == k;
      if i < |es| {
        assert (es + [e])[i] == es[i];
      }
    }
    forall k | k in Ids(es) ensures k in Ids(es + [e]) {
      var i :| 0 <= i < |es| && es[i].id == k;
      assert (es + [e])[i] == es[i];
    }
    assert (es + [e])[|es|] == e;
  }

  /** Appending an entry with a new id to a map gives a map. */
  lemma AppendKeyed(es: seq<Entry>, e: Entry)
    requires Keyed(es) && e.id !in Ids(es)
    ensures Keyed(es + [e]) && Ids(es + [e]) == Ids(es) + {e.id}
  {
    IdsSnoc(es, e);
    forall i, j | 0 <= i < j < |es + [e]| ensures (es + [e])[i].id != (es + [e])[j].id {
      assert (es + [e])[i] == es[i];
      if j < |es| {
        assert (es + [e])[j] == es[j];
      }
    }
  }

  /** Looking up in a list with one more entry at the end. */
  lemma {:induction false} AppendLookup(es: seq<Entry>, e: Entry, k: Id)
    ensures k != e.id ==> Lookup(es + [e], k) == Lookup(es, k)
    ensures e.id !in Ids(es) ==> Lookup(es + [e], e.id) == Some(e.record)
  {
    if |es| > 0 {
      assert (es + [e])[1..] == es[1..] + [e];
      IdsCons(es);
      AppendLookup(es[1..], e, k);
    }
  }

  /** Replacing a record keeps the ids in place. */
  lemma ReplaceKeyed(es: seq<Entry>, k: Id, r: Record)
    requires Keyed(es)
    ensures Keyed(Replace(es, k, r)) && Ids(Replace(es, k, r)) == Ids(es)
  {
    var es' := Replace(es, k, r);
    forall x | x in Ids(es) ensures x in Ids(es') {
      var i :| 0 <= i < |es| && es[i].id == x;
      assert es'[i].id == x;
    }
  }

  /** Replacing the record of a present id: `get` finds the new one, and
      every other id's record as it was. */
  lemma {:induction false} ReplaceLookup(es: seq<Entry>, k: Id, r: Record, x: Id)
    ensures k in Ids(es) ==> Lookup(Replace(es, k, r), k) == Some(r)
    ensures x != k ==> Lookup(Replace(es, k, r), x) == Lookup(es, x)
  {
    if |es| > 0 {
      IdsCons(es);
      ReplaceLookup(es[1..], k, r, x);
    }
  }

  /** One visit lists the entity with its current record when it
      qualifies, leaves every other record alone, and keeps the order of
      the keys already there. */
  lemma VisitSpec(b: Board, s: Store, id: Id)
    requires Valid(b) && id in s
    ensures var b' := Visit(b, s, id);
      Valid(b')
      && Ids(b'.scores) == Ids(b.scores) + (if Qualifies(s[id]) then {id} else {})
      && |b.scores| <= |b'.scores|
      && (forall i :: 0 <= i < |b.scores| ==> b'.scores[i].id == b.scores[i].id)
      && (Qualifies(s[id]) ==> Lookup(b'.scores, id) == Some(Refreshed(s[id])))
      && (forall k :: k != id ==> Lookup(b'.scores, k) == Lookup(b.scores, k))
  {
    if Qualifies(s[id]) {
      CreatedIsRefreshed(s, id);
      var r := Refreshed(s[id]);
      if id in Ids(b.scores) {
        ReplaceKeyed(b.scores, id, r);
        forall k ensures (k != id ==> Lookup(Visit(b, s, id).scores, k) == Lookup(b.scores, k))
          && Lookup(Visit(b, s, id).scores, id) == Some(r) {
          ReplaceLookup(b.scores, id, r, k);
        }
      } else {
        AppendKeyed(b.scores, Entry(id, r));
        forall k ensures (k != id ==> Lookup(Visit(b, s, id).scores, k) == Lookup(b.scores, k))
          && Lookup(Visit(b, s, id).scores, id) == Some(r) {
          AppendLookup(b.scores, Entry(id, r), k);
        }
      }
    }
  }

  /** The whole loop of `update`, over the room's entities in order. */
  function Pass(b: Board, s: Store, ids: seq<Id>): (b': Board)
    requires forall x :: x in ids ==> x in s
    decreases |ids|
  {
    if |ids| == 0 then b else Pass(Visit(b, s, ids[0]), s, ids[1..])
  }

  /** The ids of the entities of `ids` that qualify. */
  function Listed(s: Store, ids: seq<Id>): (r: set<Id>)
    requires forall x :: x in ids ==> x in s
    ensures forall k :: k in r <==> k in ids && Qualifies(s[k])
  {
    set k | k in ids && Qualifies(s[k])
  }

  /** After the loop, exactly the qualifying entities have been added,
      each with its current record; every other record is as it was, and
      no key has left or moved. */
  lemma {:induction false} PassSpec(b: Board, s: Store, ids: seq<Id>)
    requires Valid(b) && forall x :: x in ids ==> x in s
    ensures var b' := Pass(b, s, ids);
      Valid(b')
      && Ids(b'.scores) == Ids(b.scores) + Listed(s, ids)
      && |b.scores| <= |b'.scores|
      && (forall i :: 0 <= i < |b.scores| ==> b'.scores[i].id == b.scores[i].id)
      && (forall k :: k in Listed(s, ids) ==> Lookup(b'.scores, k) == Some(Refreshed(s[k])))
      && (forall k :: k !in Listed(s, ids) ==> Lookup(b'.scores, k) == Lookup(b.scores, k))
    decreases |ids|
  {
    if |ids| > 0 {
      var b1 := Visit(b, s, ids[0]);
      VisitSpec(b, s, ids[0]);
      PassSpec(b1, s, ids[1..]);
      ListedCons(s, ids);
    }
  }

  lemma ListedCons(s: Store, ids: seq<Id>)
    requires |ids| > 0 && forall x :: x in ids ==> x in s
    ensures Listed(s, ids) == Listed(s, ids[1..]) + (if Qualifies(s[ids[0]]) then {ids[0]} else {})
  {
    assert forall k :: k in ids <==> k == ids[0] || k in ids[1..];
  }

  // ---------------------------------------------------------------------
  // sort

  /** Non-increasing score in iteration order. */
  predicate Descending(es: seq<Entry>) {
    forall i, j :: 0 <= i < j < |es| ==> es[i].record.score >= es[j].record.score
  }

  /** Places one entry after every entry scoring at least as much: the
      step of a stable sort by `b.score - a.score`. */
  function InsertDesc(es: seq<Entry>, e: Entry): (r: seq<Entry>)
    ensures multiset(r) == multiset(es) + multiset{e}
  {
    if |es| == 0 then [e]
    else if es[0].record.score < e.record.score then [e] + es
    else
      assert es == [es[0]] + es[1..];
      [es[0]] + InsertDesc(es[1..], e)
  }

  /** Inserting into a sorted list keeps it sorted. */
  lemma {:induction false} InsertDescDescending(es: seq<Entry>, e: Entry)
    requires Descending(es)
    ensures Descending(InsertDesc(es, e))
  {
    if |es| > 0 && es[0].record.score >= e.record.score {
      var rest := InsertDesc(es[1..], e);
      InsertDescDescending(es[1..], e);
      forall x | x in rest ensures es[0].record.score >= x.record.score {
        assert x in multiset(rest);
        if x != e {
          assert x in es[1..];
        }
      }
      var r := [es[0]] + rest;
      forall i, j | 0 <= i < j < |r| ensures r[i].record.score >= r[j].record.score {
        if i > 0 {
          assert r[i] == rest[i - 1] && r[j] == rest[j - 1];
        } else {
          assert r[j] in rest;
        }
      }
    }
  }

  /** Entries with the same multiset have the same ids. */
  lemma SameIds(es: seq<Entry>, es': seq<Entry>)
    requires multiset(es') == multiset(es)
    ensures Ids(es') == Ids(es)
  {
    forall k | k in Ids(es) ensures k in Ids(es') {
      var i :| 0 <= i < |es| && es[i].id == k;
      assert es[i] in multiset(es');
    }
    forall k | k in Ids(es') ensures k in Ids(es) {
      var i :| 0 <= i < |es'| && es'[i].id == k;
      assert es'[i] in multiset(es);
    }
  }

  /** A slice of a map is a map. */
  lemma KeyedSlice(es: seq<Entry>, lo: nat, hi: nat)
    requires Keyed(es) && lo <= hi <= |es|
    ensures Keyed(es[lo..hi])
  {
    forall i, j | 0 <= i < j < hi - lo ensures es[lo..hi][i].id != es[lo..hi][j].id {
      assert es[lo..hi][i] == es[lo + i] && es[lo..hi][j] == es[lo + j];
    }
  }

  /** Inserting an entry with a new id into a map gives a map. */
  lemma {:induction false} InsertDescKeyed(es: seq<Entry>, e: Entry)
    requires Keyed(es) && e.id !in Ids(es)
    ensures Keyed(InsertDesc(es, e))
  {
    if |es| > 0 {
      IdsCons(es);
      var r := InsertDesc(es, e);
      if es[0].record.score < e.record.score {
        forall i, j | 0 <= i < j < |r| ensures r[i].id != r[j].id {
          assert r[j] == es[j - 1];
          if i > 0 {
            assert r[i] == es[i - 1];
          }
        }
      } else {
        KeyedSlice(es, 1, |es|);
        assert es[1..] == es[1..|es|];
        InsertDescKeyed(es[1..], e);
        var rest := InsertDesc(es[1..], e);
        assert multiset(rest) == multiset(es[1..] + [e]);
        SameIds(es[1..] + [e], rest);
        IdsSnoc(es[1..], e);
        forall i | 0 <= i < |es[1..]| ensures es[1..][i].id != es[0].id {
          assert es[1..][i] == es[i + 1];
        }
        assert es[0].id !in Ids(rest);
        forall i, j | 0 <= i < j < |r| ensures r[i].id != r[j].id {
          assert r[j] == rest[j - 1];
          if i > 0 {
            assert r[i] == rest[i - 1];
          }
        }
      }
    }
  }

  /** The stable sort by non-increasing score (`Array.prototype.sort`,
      which is stable, with the comparator `b.score - a.score`). */
  function SortDesc(es: seq<Entry>): (r: seq<Entry>)
    ensures multiset(r) == multiset(es)
    decreases |es|
  {
    if |es| == 0 then []
    else
      assert es == es[..|es| - 1] + [es[|es| - 1]];
      InsertDesc(SortDesc(es[..|es| - 1]), es[|es| - 1])
  }

  /** The sort orders by non-increasing score and keeps a map a map. */
  lemma {:induction false} SortDescSpec(es: seq<Entry>)
    ensures Descending(SortDesc(es))
    ensures Keyed(es) ==> Keyed(SortDesc(es))
    decreases |es|
  {
    if |es| > 0 {
      var init := es[..|es| - 1];
      var last := es[|es| - 1];
      SortDescSpec(init);
      InsertDescDescending(SortDesc(init), last);
      if Keyed(es) {
        KeyedSlice(es, 0, |es| - 1);
        forall i | 0 <= i < |init| ensures init[i].id != last.id {
          assert init[i] == es[i];
        }
        SameIds(init, SortDesc(init));
        InsertDescKeyed(SortDesc(init), last);
      }
    }
  }

  /** Two maps with the same entries answer every lookup alike. */
  lemma Permuted(es: seq<Entry>, es': seq<Entry>)
    requires Keyed(es) && Keyed(es') && multiset(es') == multiset(es)
    ensures Ids(es') == Ids(es)
    ensures forall k :: Lookup(es', k) == Lookup(es, k)
  {
    SameIds(es, es');
    forall k ensures Lookup(es', k) == Lookup(es, k) {
      if Lookup(es, k).Some? {
        var r := Lookup(es, k).value;
        assert Entry(k, r) in multiset(es');
        LookupIn(es', k, r);
      }
    }
  }

  /** `sort()`: the first ten entries by non-increasing score. */
  function Sort(b: Board): (b': Board) {
    var sorted := SortDesc(b.scores);
    b.(scores := sorted[..if |sorted| < MaxRecords then |sorted| else MaxRecords])
  }

  /** The sorted board holds at most ten records, by non-increasing
      score, each as it was; it drops only records that scored no more
      than every record it keeps, and only when ten are kept. */
  lemma SortSpec(b: Board)
    requires Valid(b)
    ensures var b' := Sort(b);
      Valid(b') && |b'.scores| <= MaxRecords && Descending(b'.scores)
      && Ids(b'.scores) <= Ids(b.scores)
      && (forall k :: k in Ids(b'.scores) ==> Lookup(b'.scores, k) == Lookup(b.scores, k))
      && (forall k :: k in Ids(b.scores) && k !in Ids(b'.scores) ==>
            |b'.scores| == MaxRecords
            && forall i :: 0 <= i < |b'.scores| ==> b'.scores[i].record.score >= Lookup(b.scores, k).value.score)
  {
    var sorted := SortDesc(b.scores);
    SortDescSpec(b.scores);
    Permuted(b.scores, sorted);
    var n := if |sorted| < MaxRecords then |sorted| else MaxRecords;
    Truncated(sorted, n);
    if n == |sorted| {
      assert sorted[..n] == sorted;
    }
  }

  /** The first n entries of a sorted map: a sorted map whose records are
      those of the whole, ahead of every record left out. */
  lemma Truncated(es: seq<Entry>, n: nat)
    requires Keyed(es) && Descending(es) && n <= |es|
    ensures Keyed(es[..n]) && Descending(es[..n]) && Ids(es[..n]) <= Ids(es)
    ensures forall k :: k in Ids(es[..n]) ==> Lookup(es[..n], k) == Lookup(es, k)
    ensures forall k :: k in Ids(es) && k !in Ids(es[..n]) ==>
      forall i :: 0 <= i < n ==> es[i].record.score >= Lookup(es, k).value.score
  {
    KeyedSlice(es, 0, n);
    forall k | k in Ids(es[..n]) ensures k in Ids(es) && Lookup(es[..n], k) == Lookup(es, k) {
      PrefixLookup(es, n, k);
    }
    forall k | k in Ids(es) && k !in Ids(es[..n])
      ensures forall i :: 0 <= i < n ==> es[i].record.score >= Lookup(es, k).value.score
    {
      TruncatedDrop(es, n, k);
    }
  }

  /** An id missing from the first n entries of a sorted map scores no
      more than any of them. */
  lemma TruncatedDrop(es: seq<Entry>, n: nat, k: Id)
    requires Keyed(es) && Descending(es) && n <= |es|
    requires k in Ids(es) && k !in Ids(es[..n])
    ensures forall i :: 0 <= i < n ==> es[i].record.score >= Lookup(es, k).value.score
  {
    var j :| 0 <= j < |es| && es[j].id == k;
    LookupIn(es, k, es[j].record);
    forall i | 0 <= i < n ensures es[i].id != k {
      assert es[..n][i] == es[i];
    }
    assert n <= j;
  }

  /** A lookup that succeeds on a prefix finds the same record in the
      whole list. */
  lemma {:induction false} PrefixLookup(es: seq<Entry>, n: nat, k: Id)
    requires n <= |es|
    ensures Lookup(es[..n], k).Some? ==> Lookup(es[..n], k) == Lookup(es, k)
  {
    if n > 0 {
      assert es[..n][1..] == es[1..][..n - 1];
      PrefixLookup(es[1..], n - 1, k);
    }
  }

  /** `update()`: the loop, then `sort()`. */
  function Update(b: Board, s: Store, ids: seq<Id>): (b': Board)
    requires forall x :: x in ids ==> x in s
  {
    Sort(Pass(b, s, ids))
  }

  /** After `update` the board holds at most ten records by
      non-increasing score. Each kept record of a qualifying entity shows
      its current title and score; every other kept record is as it was.
      A record that was there before disappears only by the truncation to
      ten, never because its score fell. */
  lemma UpdateSpec(b: Board, s: Store, ids: seq<Id>)
    requires Valid(b) && forall x :: x in ids ==> x in s
    ensures var b' := Update(b, s, ids);
      Valid(b') && |b'.scores| <= MaxRecords && Descending(b'.scores)
      && Ids(b'.scores) <= Ids(b.scores) + Listed(s, ids)
      && (forall k :: k in Ids(b'.scores) && k in Listed(s, ids) ==> Lookup(b'.scores, k) == Some(Refreshed(s[k])))
      && (forall k :: k in Ids(b'.scores) && k !in Listed(s, ids) ==> Lookup(b'.scores, k) == Lookup(b.scores, k))
      && (forall k :: k in Ids(b.scores) + Listed(s, ids) && k !in Ids(b'.scores) ==> |b'.scores| == MaxRecords)
  {
    PassSpec(b, s, ids);
    SortSpec(Pass(b, s, ids));
  }

  // ---------------------------------------------------------------------
  // the 'remove' listener

  /** An entity's `'remove'` event: its listener, if it has one, deletes
      its record. */
  function OnRemove(b: Board, id: Id): (b': Board) {
    if id in b.listening then b.(scores := Drop(b.scores, id)) else b
  }

  /** `scores.delete(id)`: the entries without that id, in order. */
  function Drop(es: seq<Entry>, k: Id): (r: seq<Entry>)
    ensures forall x :: x in r ==> x in es
  {
    if |es| == 0 then []
    else if es[0].id == k then Drop(es[1..], k)
    else [es[0]] + Drop(es[1..], k)
  }

  /** Deleting a key from a map removes that id and keeps a map. */
  lemma {:induction false} DropSpec(es: seq<Entry>, k: Id)
    requires Keyed(es)
    ensures Ids(Drop(es, k)) == Ids(es) - {k} && Keyed(Drop(es, k))
  {
    if |es| > 0 {
      IdsCons(es);
      KeyedSlice(es, 1, |es|);
      assert es[1..] == es[1..|es|];
      DropSpec(es[1..], k);
      if es[0].id != k {
        var rest := Drop(es[1..], k);
        var r := [es[0]] + rest;
        assert r[1..] == rest;
        IdsCons(r);
        forall i | 0 <= i < |es[1..]| ensures es[1..][i].id != es[0].id {
          assert es[1..][i] == es[i + 1];
        }
        forall i, j | 0 <= i < j < |r| ensures r[i].id != r[j].id {
          assert r[j] == rest[j - 1];
          if i > 0 {
            assert r[i] == rest[i - 1];
          }
        }
      }
    }
  }

  /** Deleting a key leaves the lookups of the others. */
  lemma {:induction false} DropLookup(es: seq<Entry>, k: Id, x: Id)
    requires x != k
    ensures Lookup(Drop(es, k), x) == Lookup(es, x)
  {
    if |es| > 0 {
      DropLookup(es[1..], k, x);
    }
  }

  /** The removal of a listed entity deletes exactly its record, since
      every listed entity has the listener; the board stays valid. */
  lemma OnRemoveSpec(b: Board, id: Id)
    requires Valid(b)
    ensures var b' := OnRemove(b, id);
      Valid(b') && Ids(b'.scores) == Ids(b.scores) - {id}
      && forall k :: k != id ==> Lookup(b'.scores, k) == Lookup(b.scores, k)
  {
    DropSpec(b.scores, id);
    forall k | k != id ensures Lookup(Drop(b.scores, id), k) == Lookup(b.scores, k) {
      DropLookup(b.scores, id, k);
    }
  }
}
