/** One imported RSS item (cmsplugin_rss_import/models.py, class RSSImport) and the table
    of them, with the three operations the import thread and the admin use:
    create a row with the model's defaults, delete a row, save a row back. */
module Imports {
  import opened Wrappers

  /** The three `STATUS_CHOICES`. */
  datatype Status = Scheduled | Processing | Complete

  /** What an import stores under one name of its content: an element's text
      or attribute (None is an element without text), a dict of attributes,
      or the `multimedia` dict that `_save_image` writes. */
  datatype Value =
    | VText(text: Option<string>)
    | VAttrs(attrs: map<string, string>)
    | VMedia(media: map<string, MediaEntry>)

  /** One entry of a `multimedia` dict: an image id (None marks a failed
      download), or an attribute text that was already there because a field
      stored its dict of attributes under the name `multimedia`. */
  datatype MediaEntry = Image(id: Option<nat>) | Attribute(text: string)

  type Content = map<string, Value>

  /** A row: its id, the id of its source, the content, the flag that shows
      it in the page plugin and its status. The timestamp is left out. */
  datatype RSSImport = RSSImport(id: nat, source: nat, content: Content, enabled: bool, status: Status)

  /** The rule the import thread and the admin actions keep: only a
      complete import is shown. */
  predicate ShownOnlyComplete(r: RSSImport) {
    r.enabled ==> r.status == Complete
  }

  predicate UniqueIds(rows: seq<RSSImport>) {
    forall i, j :: 0 <= i < j < |rows| ==> rows[i].id != rows[j].id
  }

  /** The ids of some rows. */
  function IdsOf(rows: seq<RSSImport>): (ids: set<nat>)
    ensures forall r :: r in rows ==> r.id in ids
    ensures forall id :: id in ids ==> exists r :: r in rows && r.id == id
  {
    set r | r in rows :: r.id
  }

  /** The ids of a query's first `i + 1` rows. */
  lemma IdsOfSnoc(rows: seq<RSSImport>, i: nat)
    requires i < |rows|
    ensures IdsOf(rows[..i + 1]) == IdsOf(rows[..i]) + {rows[i].id}
  {
    assert rows[..i + 1] == rows[..i] + [rows[i]];
  }

  /** The rows whose id is not in `ids`, in table order. */
  function Without(rows: seq<RSSImport>, ids: set<nat>): (r: seq<RSSImport>)
    ensures forall x :: x in r <==> x in rows && x.id !in ids
    ensures |r| <= |rows|
  {
    if rows == [] then []
    else (if rows[0].id in ids then [] else [rows[0]]) + Without(rows[1..], ids)
  }

  /** Deleting one id set after another deletes their union. */
  lemma {:induction false} WithoutWithout(rows: seq<RSSImport>, a: set<nat>, b: set<nat>)
    ensures Without(Without(rows, a), b) == Without(rows, a + b)
  {
    if rows != [] {
      WithoutWithout(rows[1..], a, b);
      var w := Without(rows[1..], a);
      if rows[0].id in a {
        assert Without(rows, a) == w;
      } else {
        assert Without(rows, a) == [rows[0]] + w;
        assert ([rows[0]] + w)[1..] == w;
      }
    }
  }

  /** Deleting no id keeps every row. */
  lemma {:induction false} WithoutNothing(rows: seq<RSSImport>)
    ensures Without(rows, {}) == rows
  {
    if rows != [] {
      WithoutNothing(rows[1..]);
      assert [rows[0]] + rows[1..] == rows;
    }
  }

  /** Deleting keeps the ids unique. */
  lemma {:induction false} WithoutUnique(rows: seq<RSSImport>, ids: set<nat>)
    requires UniqueIds(rows)
    ensures UniqueIds(Without(rows, ids))
  {
    if rows != [] {
      assert UniqueIds(rows[1..]) by {
        forall i, j | 0 <= i < j < |rows[1..]| ensures rows[1..][i].id != rows[1..][j].id {
          assert rows[1..][i] == rows[i + 1] && rows[1..][j] == rows[j + 1];
        }
      }
      WithoutUnique(rows[1..], ids);
      var w := Without(rows[1..], ids);
      forall x | x in w ensures x.id != rows[0].id {
        var k :| 0 <= k < |rows[1..]| && rows[1..][k] == x;
        assert rows[k + 1] == x;
      }
    }
  }

  /** `save()` on a row: an update of the row with that id when there is
      one, otherwise an insert. */
  function Saved(rows: seq<RSSImport>, r: RSSImport): (s: seq<RSSImport>)
    ensures |s| == |rows| || s == rows + [r]
    ensures r in s
    ensures forall x :: x in s && x != r ==> x in rows
    ensures r.id in IdsOf(rows) ==> |s| == |rows|
  {
    if rows == [] then [r]
    else if rows[0].id == r.id then [r] + rows[1..]
    else [rows[0]] + Saved(rows[1..], r)
  }

  /** Saving keeps the ids unique and only replaces the row with the saved id. */
  lemma {:induction false} SavedUnique(rows: seq<RSSImport>, r: RSSImport)
    requires UniqueIds(rows)
    ensures UniqueIds(Saved(rows, r))
    ensures forall x :: x in rows && x.id != r.id ==> x in Saved(rows, r)
  {
    if rows != [] {
      assert UniqueIds(rows[1..]) by {
        forall i, j | 0 <= i < j < |rows[1..]| ensures rows[1..][i].id != rows[1..][j].id {
          assert rows[1..][i] == rows[i + 1] && rows[1..][j] == rows[j + 1];
        }
      }
      forall x | x in rows[1..] ensures x.id != rows[0].id {
        var k :| 0 <= k < |rows[1..]| && rows[1..][k] == x;
        assert rows[k + 1] == x;
      }
      if rows[0].id != r.id {
        SavedUnique(rows[1..], r);
        var s := Saved(rows[1..], r);
        forall x | x in s ensures x.id != rows[0].id {
          assert x == r || x in rows[1..];
        }
        forall x | x in rows && x.id != r.id ensures x in Saved(rows, r) {
          if x != rows[0] {
            assert x in rows[1..];
          }
        }
      } else {
        forall x | x in rows && x.id != r.id ensures x in Saved(rows, r) {
          assert x in rows[1..];
        }
      }
    }
  }

  /** Two rows of a table with unique ids that share an id are the same row. */
  lemma SameIdSameRow(rows: seq<RSSImport>, x: RSSImport, y: RSSImport)
    requires UniqueIds(rows) && x in rows && y in rows && x.id == y.id
    ensures x == y
  {
    var i :| 0 <= i < |rows| && rows[i] == x;
    var j :| 0 <= j < |rows| && rows[j] == y;
  }

  /** Saving a row twice leaves what the second save wrote. */
  lemma {:induction false} SavedTwice(rows: seq<RSSImport>, a: RSSImport, b: RSSImport)
    requires a.id == b.id
    ensures Saved(Saved(rows, a), b) == Saved(rows, b)
  {
    if rows != [] && rows[0].id != a.id {
      SavedTwice(rows[1..], a, b);
      assert ([rows[0]] + Saved(rows[1..], a))[1..] == Saved(rows[1..], a);
    } else if rows != [] {
      assert ([a] + rows[1..])[1..] == rows[1..];
    }
  }

  /** The import table. */
  class ImportTable {
    var rows: seq<RSSImport>
    var nextId: nat

    /** Ids are unique and below the next id the table hands out. */
    ghost predicate Valid()
      reads this
    {
      UniqueIds(rows) && forall i :: 0 <= i < |rows| ==> rows[i].id < nextId
    }

    /** Every shown import is complete. */
    predicate ShownAreComplete()
      reads this
    {
      forall x :: x in rows ==> ShownOnlyComplete(x)
    }

    constructor ()
      ensures rows == [] && nextId == 1
      ensures Valid() && ShownAreComplete()
    {
      rows := [];
      nextId := 1;
    }

    /** `RSSImport.objects.create(source=..., content=...)`: a new row,
      hidden and scheduled (the defaults at models.py:300-301). */
    method Create(source: nat, content: Content) returns (r: RSSImport)
      requires Valid()
      modifies this
      ensures r == RSSImport(old(nextId), source, content, false, Scheduled)
      ensures rows == old(rows) + [r] && nextId == old(nextId) + 1
      ensures Valid()
      ensures old(ShownAreComplete()) ==> ShownAreComplete()
    {
      r := RSSImport(nextId, source, content, false, Scheduled);
      rows := rows + [r];
      nextId := nextId + 1;
    }

    /** `delete()` on the row with this id. */
    method Delete(id: nat)
      requires Valid()
      modifies this
      ensures rows == Without(old(rows), {id}) && nextId == old(nextId)
      ensures Valid()
      ensures old(ShownAreComplete()) ==> ShownAreComplete()
    {
      WithoutUnique(rows, {id});
      rows := Without(rows, {id});
    }

    /** `save()` on a row the table handed out. */
    method Save(r: RSSImport)
      requires Valid() && r.id < nextId
      modifies this
      ensures rows == Saved(old(rows), r) && nextId == old(nextId)
      ensures Valid()
      ensures old(ShownAreComplete()) && ShownOnlyComplete(r) ==> ShownAreComplete()
    {
      SavedUnique(rows, r);
      rows := Saved(rows, r);
    }
  }
}
