/** The medicine store: an ordered list of `Medicine` records and the three
    list transformations the screen applies to it (delete by id, append with
    a size-based id, and replace by id). Each is a pure function of the list. */
module Store {

  /** One row of the list. Kotlin's `Int` is modelled as `int`, strings as `string`. */
  datatype Medicine = Medicine(id: int, name: string, dosage: string, schedule: string)

  /** The three rows the screen starts with. */
  const SampleMedicines: seq<Medicine> := [
    Medicine(1, "Paracetamol", "500mg", "Morning"),
    Medicine(2, "Aspirin", "300mg", "Afternoon"),
    Medicine(3, "Ibuprofen", "200mg", "Evening")
  ]

  /** Some row of `meds` carries `id`. */
  ghost predicate HasId(meds: seq<Medicine>, id: int) {
    exists i :: 0 <= i < |meds| && meds[i].id == id
  }

  /** No two rows of `meds` share an id (the source does not maintain this). */
  ghost predicate UniqueIds(meds: seq<Medicine>) {
    forall i, j :: 0 <= i < j < |meds| ==> meds[i].id != meds[j].id
  }

  /** Every id is at least 1: the seed's ids are, and so is every size-plus-one id. */
  ghost predicate PositiveIds(meds: seq<Medicine>) {
    forall i :: 0 <= i < |meds| ==> meds[i].id >= 1
  }

  /** The screen's selection before any row is edited; its id 0 is no row's. */
  const NoSelection: Medicine := Medicine(0, "", "", "")

  // ---------------------------------------------------------------- Delete

  /** The delete callback: keep exactly the rows whose id differs from `id`. */
  function Delete(meds: seq<Medicine>, id: int): (r: seq<Medicine>)
    ensures |r| <= |meds|
    ensures forall x :: x in r <==> x in meds && x.id != id
  {
    if meds == [] then []
    else if meds[0].id != id then [meds[0]] + Delete(meds[1..], id)
    else Delete(meds[1..], id)
  }

  /** On a single row, delete keeps it exactly when its id differs. */
  lemma DeleteOne(x: Medicine, id: int)
    ensures Delete([x], id) == (if x.id != id then [x] else [])
  {
  }

  /** Delete distributes over concatenation; with DeleteOne this says
      the kept rows stay in their original relative order. */
  lemma {:induction false} DeleteConcat(a: seq<Medicine>, b: seq<Medicine>, id: int)
    ensures Delete(a + b, id) == Delete(a, id) + Delete(b, id)
  {
    if a == [] {
      assert a + b == b;
    } else {
      assert (a + b)[1..] == a[1..] + b;
      DeleteConcat(a[1..], b, id);
    }
  }

  /** Deleting an id no row carries leaves the list as it was. */
  lemma {:induction false} DeleteAbsent(meds: seq<Medicine>, id: int)
    requires !HasId(meds, id)
    ensures Delete(meds, id) == meds
  {
    if meds != [] {
      assert meds[0].id != id;
      assert !HasId(meds[1..], id) by {
        forall i | 0 <= i < |meds[1..]| ensures meds[1..][i].id != id {
          assert meds[1..][i] == meds[i + 1];
        }
      }
      DeleteAbsent(meds[1..], id);
      assert [meds[0]] + meds[1..] == meds;
    }
  }

  /** After a delete no row carries the id, so a second delete changes nothing. */
  lemma DeleteIdempotent(meds: seq<Medicine>, id: int)
    ensures Delete(Delete(meds, id), id) == Delete(meds, id)
  {
  }

  /** Delete keeps ids unique, since it only drops rows. */
  lemma {:induction false} DeleteKeepsUnique(meds: seq<Medicine>, id: int)
    requires UniqueIds(meds)
    ensures UniqueIds(Delete(meds, id))
  {
    if meds != [] {
      var t := meds[1..];
      assert UniqueIds(t) by {
        forall i, j | 0 <= i < j < |t| ensures t[i].id != t[j].id {
          assert t[i] == meds[i + 1] && t[j] == meds[j + 1];
        }
      }
      DeleteKeepsUnique(t, id);
      if meds[0].id != id {
        var d := Delete(t, id);
        var r := [meds[0]] + d;
        forall i, j | 0 <= i < j < |r| ensures r[i].id != r[j].id {
          if i == 0 {
            assert r[j] == d[j - 1] && d[j - 1] in t;
            var k :| 0 <= k < |t| && t[k] == d[j - 1];
            assert t[k] == meds[k + 1];
          }
        }
      }
    }
  }

  /** When ids are unique and one row carries `id`, delete removes exactly one row. */
  lemma {:induction false} DeleteRemovesOne(meds: seq<Medicine>, id: int)
    requires UniqueIds(meds) && HasId(meds, id)
    ensures |Delete(meds, id)| == |meds| - 1
  {
    var t := meds[1..];
    assert UniqueIds(t) by {
      forall i, j | 0 <= i < j < |t| ensures t[i].id != t[j].id {
        assert t[i] == meds[i + 1] && t[j] == meds[j + 1];
      }
    }
    if meds[0].id == id {
      assert !HasId(t, id) by {
        forall i | 0 <= i < |t| ensures t[i].id != id {
          assert t[i] == meds[i + 1];
        }
      }
      DeleteAbsent(t, id);
    } else {
      var k :| 0 <= k < |meds| && meds[k].id == id;
      assert t[k - 1] == meds[k];
      DeleteRemovesOne(t, id);
    }
  }

  // ------------------------------------------------------------------- Add

  /** The add callback: append a row built from the drafts, numbered one past the current size. */
  function Add(meds: seq<Medicine>, name: string, dosage: string, schedule: string): (r: seq<Medicine>)
    ensures |r| == |meds| + 1
    ensures r[..|meds|] == meds
    ensures r[|meds|] == Medicine(|meds| + 1, name, dosage, schedule)
  {
    meds + [Medicine(|meds| + 1, name, dosage, schedule)]
  }

  /** While every id is at most the list size (as for ids 1..n), add keeps ids
      unique and keeps that bound. */
  lemma AddKeepsUnique(meds: seq<Medicine>, name: string, dosage: string, schedule: string)
    requires UniqueIds(meds)
    requires forall i :: 0 <= i < |meds| ==> meds[i].id <= |meds|
    ensures UniqueIds(Add(meds, name, dosage, schedule))
    ensures forall i :: 0 <= i < |meds| + 1 ==> Add(meds, name, dosage, schedule)[i].id <= |meds| + 1
  {
  }

  /** The id rule is not collision-safe: with unique ids whose last row has id
      n = |meds|, deleting any other present id and then adding gives a second
      row with id n. */
  lemma AddCollidesAfterDelete(meds: seq<Medicine>, id: int, name: string, dosage: string, schedule: string)
    requires UniqueIds(meds)
    requires |meds| > 0 && meds[|meds| - 1].id == |meds|
    requires HasId(meds, id) && id != |meds|
    ensures !UniqueIds(Add(Delete(meds, id), name, dosage, schedule))
  {
    var d := Delete(meds, id);
    DeleteRemovesOne(meds, id);
    var last := meds[|meds| - 1];
    assert last in meds;
    assert last in d;
    var j :| 0 <= j < |d| && d[j] == last;
    var r := Add(d, name, dosage, schedule);
    assert r[j] == r[..|d|][j] == last;
    assert r[|d|].id == |meds|;
  }

  /** The seed scenario: delete id 2, then add; the new row gets id 3, which row
      "Ibuprofen" already has. */
  lemma SeedDeleteThenAddCollides()
    ensures Add(Delete(SampleMedicines, 2), "Vitamin D", "1000IU", "Night")
         == [SampleMedicines[0], SampleMedicines[2], Medicine(3, "Vitamin D", "1000IU", "Night")]
    ensures !UniqueIds(Add(Delete(SampleMedicines, 2), "Vitamin D", "1000IU", "Night"))
  {
  }

  // ---------------------------------------------------------------- Update

  /** One step of the update callback's map: a row whose id matches the
      selected medicine's is rebuilt from the drafts; any other row is kept. */
  function Edited(x: Medicine, selected: Medicine, name: string, dosage: string, schedule: string): Medicine {
    if x.id == selected.id then Medicine(selected.id, name, dosage, schedule) else x
  }

  /** The update callback: every row whose id is the selected medicine's id
      takes the draft name, dosage and schedule; position, length and ids are kept. */
  function Update(meds: seq<Medicine>, selected: Medicine, name: string, dosage: string, schedule: string): (r: seq<Medicine>)
    ensures |r| == |meds|
    ensures forall i :: 0 <= i < |meds| ==> r[i].id == meds[i].id
    ensures forall i :: 0 <= i < |meds| && meds[i].id == selected.id ==>
              r[i].name == name && r[i].dosage == dosage && r[i].schedule == schedule
    ensures forall i :: 0 <= i < |meds| && meds[i].id != selected.id ==> r[i] == meds[i]
  {
    if meds == [] then []
    else [Edited(meds[0], selected, name, dosage, schedule)] + Update(meds[1..], selected, name, dosage, schedule)
  }

  /** Updating with a selected id that no row carries is a no-op. */
  lemma UpdateAbsent(meds: seq<Medicine>, selected: Medicine, name: string, dosage: string, schedule: string)
    requires !HasId(meds, selected.id)
    ensures Update(meds, selected, name, dosage, schedule) == meds
  {
  }

  /** The screen's initial selection, id 0, matches no row of a list with
      positive ids (the seed's are 1 to 3), so "update" from it is a no-op. */
  lemma UpdatePlaceholderIsNoop(meds: seq<Medicine>, name: string, dosage: string, schedule: string)
    requires PositiveIds(meds)
    ensures Update(meds, NoSelection, name, dosage, schedule) == meds
  {
  }

  /** Update keeps every id in place, so it keeps ids unique and positive. */
  lemma UpdateKeepsIds(meds: seq<Medicine>, selected: Medicine, name: string, dosage: string, schedule: string)
    ensures UniqueIds(meds) ==> UniqueIds(Update(meds, selected, name, dosage, schedule))
    ensures PositiveIds(meds) ==> PositiveIds(Update(meds, selected, name, dosage, schedule))
  {
  }

  /** Submitting the same drafts twice gives the same list as submitting once. */
  lemma UpdateIdempotent(meds: seq<Medicine>, selected: Medicine, name: string, dosage: string, schedule: string)
    ensures Update(Update(meds, selected, name, dosage, schedule), selected, name, dosage, schedule)
         == Update(meds, selected, name, dosage, schedule)
  {
  }

  /** Deleting the selected medicine after editing it leaves the same list as
      deleting it without the edit: update touches only the rows delete removes. */
  lemma {:induction false} DeleteAfterUpdate(meds: seq<Medicine>, selected: Medicine, name: string, dosage: string, schedule: string)
    ensures Delete(Update(meds, selected, name, dosage, schedule), selected.id) == Delete(meds, selected.id)
  {
    if meds != [] {
      var u := Update(meds, selected, name, dosage, schedule);
      assert u[1..] == Update(meds[1..], selected, name, dosage, schedule);
      DeleteAfterUpdate(meds[1..], selected, name, dosage, schedule);
    }
  }
}
