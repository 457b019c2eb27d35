/**
 * How the pages meet in the shared table: what the staff form sees of a
 * customer's order, what each page's write keeps and overwrites, and the row an
 * order ends with once it has gone through all of them.
 */
module Workflow {
  import opened Catalog
  import opened Records
  import opened Customer
  import opened Staff

  /** The customer fields of a row, which no staff save writes. */
  const CustomerFields: set<Field> := {Name, Zipcode, Address, Phone, Email, TotalPrice, Items}

  /**
   * The staff form's quantity defaults read the per-product top-level columns, which
   * a freshly registered order does not have: every quantity shows as 0 until the
   * customer page has copied the items out.
   */
  lemma StaffSeesZeroBeforeCopy(d: Record, k: ProductKey)
    requires {Name, Zipcode, Address, TotalPrice, Items} <= d.Keys
    ensures QtyDefault(InsertRecord(d), k) == Int(0)
  {
  }

  /** Once the copy has been merged in, the staff form shows the customer's quantity. */
  lemma StaffSeesCopiedQuantities(row: Record, items: Quantities, k: ProductKey)
    ensures QtyDefault(Merge(row, CopyPatch(items)), k) == Int(StoredQuantity(items, k))
  {
  }

  /**
   * A staff save writes status "measured" whatever the status was: an order the
   * customer has already completed is set back to "measured".
   */
  lemma StaffSaveReopensCompleted(row: Record, inputs: Record)
    requires forall f :: InForm(f) ==> f in inputs
    requires Get(row, Status) == Completed
    ensures Get(Merge(row, StaffPatch(inputs)), Status) == Measured
    ensures Get(Merge(row, StaffPatch(inputs)), Status) != Get(row, Status)
  {
  }

  /**
   * A staff save changes only the measurement fields of the spec table's products
   * and the status: the customer's fields and every necktie column stay as they were.
   */
  lemma StaffSaveKeepsCustomerFields(row: Record, inputs: Record)
    requires forall f :: InForm(f) ==> f in inputs
    ensures forall f :: Get(Merge(row, StaffPatch(inputs)), f) != Get(row, f) ==> f == Status || InForm(f)
    ensures forall f :: f in CustomerFields ==> Get(Merge(row, StaffPatch(inputs)), f) == Get(row, f)
    ensures forall f: Field :: NecktieColumn(f) ==> Get(Merge(row, StaffPatch(inputs)), f) == Get(row, f)
  {
    var p := StaffPatch(inputs);
    var r := Merge(row, p);
    forall f | f != Status && !InForm(f) ensures Get(r, f) == Get(row, f) {
      assert f !in p;
    }
    NotStaffFields();
  }

  /** The columns of the necktie, which has no entry in the spec table. */
  predicate NecktieColumn(f: Field)
  {
    (f.Qty? || f.Waist? || f.Length? || f.Memo? || f.Size?) && f.product == Necktie
  }

  /** Neither the customer fields nor the necktie's columns are written by a staff save. */
  lemma NotStaffFields()
    ensures forall f :: f in CustomerFields ==> f != Status && !InForm(f)
    ensures forall f :: NecktieColumn(f) ==> f != Status && !InForm(f)
  {
  }

  /** A staff save leaves the customer's waiting page able to render. */
  lemma StaffSaveKeepsWaitingPage(row: Record, inputs: Record)
    requires forall f :: InForm(f) ==> f in inputs
    requires WaitFormRenders(row)
    ensures WaitFormRenders(Merge(row, StaffPatch(inputs)))
    ensures Get(Merge(row, StaffPatch(inputs)), Status) == Measured
  {
  }

  /** The waiting page's quantity update keeps the status and every column but items and total. */
  lemma QuantityUpdateKeepsStatus(row: Record, items: Quantities)
    requires Covers(items)
    ensures forall f :: f != Items && f != TotalPrice ==> Get(Merge(row, QuantityPatch(items)), f) == Get(row, f)
  {
  }

  /**
   * A staff save and the waiting page's quantity update write disjoint columns, so
   * the row ends the same whichever of the two pages writes first.
   */
  lemma StaffSaveCommutesWithQuantityUpdate(row: Record, inputs: Record, items: Quantities)
    requires forall f :: InForm(f) ==> f in inputs
    requires Covers(items)
    ensures Merge(Merge(row, StaffPatch(inputs)), QuantityPatch(items))
         == Merge(Merge(row, QuantityPatch(items)), StaffPatch(inputs))
  {
    assert StaffPatch(inputs).Keys !! QuantityPatch(items).Keys;
    MergeCommutes(row, StaffPatch(inputs), QuantityPatch(items));
  }

  /** A quantity update written from the 0..10 widgets leaves a row the waiting page can render. */
  lemma QuantityUpdateRenders(row: Record, items: Quantities)
    requires Selectable(items, 10)
    ensures WaitFormRenders(Merge(row, QuantityPatch(items)))
  {
    var r := Merge(row, QuantityPatch(items));
    forall k ensures 0 <= StoredQuantity(r[Items].items, k) <= 10 {
      assert k in items;
    }
  }

  /** A freshly registered order's waiting page renders: its quantities are valid widget indices. */
  lemma RegisteredRowRenders(d: Record)
    requires WellFormedDraft(d)
    ensures WaitFormRenders(InsertRecord(d))
  {
    InsertedDraft(d);
    var items := d[Items].items;
    forall k ensures 0 <= StoredQuantity(items, k) <= 10 {
      assert k in items;
    }
  }

  /**
   * The copy made when the customer page sees "measured" overwrites whatever
   * quantities a staff save wrote with the ones in the stored items.
   */
  lemma CopyOverwritesStaffQuantities(row: Record, inputs: Record, items: Quantities, k: ProductKey)
    requires forall f :: InForm(f) ==> f in inputs
    ensures Get(Merge(Merge(row, StaffPatch(inputs)), CopyPatch(items)), Qty(k)) == Int(StoredQuantity(items, k))
    ensures forall f: Field :: !f.Qty? ==>
      Get(Merge(Merge(row, StaffPatch(inputs)), CopyPatch(items)), f) == Get(Merge(row, StaffPatch(inputs)), f)
  {
  }

  /** Confirming an order twice leaves the row as confirming it once. */
  lemma ConfirmTwice(row: Record)
    ensures Merge(Merge(row, CompletePatch), CompletePatch) == Merge(row, CompletePatch)
    ensures Get(Merge(row, CompletePatch), Status) == Completed
  {
    MergeIdempotent(row, CompletePatch);
  }

  /** A registered well-formed draft stores a total that agrees with its items. */
  lemma InsertedTotalConsistent(d: Record)
    requires WellFormedDraft(d)
    ensures TotalConsistent(InsertRecord(d))
  {
  }

  /**
   * Every write of the three pages keeps a row's stored total in agreement with
   * its items: the quantity update writes both, the others write neither.
   */
  lemma WritesKeepTotalConsistent(row: Record, items: Quantities, inputs: Record, copied: Quantities)
    requires TotalConsistent(row)
    requires Covers(items)
    requires forall f :: InForm(f) ==> f in inputs
    ensures TotalConsistent(Merge(row, QuantityPatch(items)))
    ensures TotalConsistent(Merge(row, StaffPatch(inputs)))
    ensures TotalConsistent(Merge(row, CopyPatch(copied)))
    ensures TotalConsistent(Merge(row, CompletePatch))
  {
    var s := Merge(row, StaffPatch(inputs));
    assert Items !in StaffPatch(inputs) && TotalPrice !in StaffPatch(inputs);
    assert Items in s <==> Items in row;
    assert TotalPrice in s <==> TotalPrice in row;
  }

  /** The table all three pages share, holding only rows whose totals agree with their items. */
  ghost predicate TotalsConsistent(rows: map<nat, Record>)
  {
    forall id :: id in rows ==> TotalConsistent(rows[id])
  }

  /** Merging any of the pages' patches into one row keeps every total of the table consistent. */
  lemma {:induction false} UpdateKeepsTotalsConsistent(rows: map<nat, Record>, id: nat, patch: Record,
                                                       items: Quantities, inputs: Record, copied: Quantities)
    requires TotalsConsistent(rows)
    requires Covers(items)
    requires forall f :: InForm(f) ==> f in inputs
    requires patch in {QuantityPatch(items), StaffPatch(inputs), CopyPatch(copied), CompletePatch}
    ensures id in rows ==> TotalsConsistent(rows[id := Merge(rows[id], patch)])
  {
    if id in rows {
      WritesKeepTotalConsistent(rows[id], items, inputs, copied);
      var next := rows[id := Merge(rows[id], patch)];
      forall j | j in next ensures TotalConsistent(next[j]) {
        if j != id {
          assert next[j] == rows[j];
        }
      }
    }
  }

  /** The draft's fields are none of the columns the staff save, the copy or the confirmation write. */
  lemma DraftFieldsUntouched(items: Quantities)
    ensures forall f :: f in DraftFields ==> !f.Qty? && f != Status && !InForm(f) && f !in CopyPatch(items)
  {
  }

  /** Copying and then confirming keeps every column other than quantities and status. */
  lemma CopyThenConfirmKeeps(row: Record, items: Quantities)
    ensures forall f: Field :: !f.Qty? && f != Status ==>
      Get(Merge(Merge(row, CopyPatch(items)), CompletePatch), f) == Get(row, f)
  {
    var cp := CopyPatch(items);
    forall f: Field | !f.Qty? && f != Status
      ensures Get(Merge(Merge(row, cp), CompletePatch), f) == Get(row, f)
    {
      assert f !in cp && f !in CompletePatch;
    }
  }

  /** Confirming after the copy keeps the copied quantities. */
  lemma CopyThenConfirm(row: Record, items: Quantities)
    ensures forall k :: Merge(Merge(row, CopyPatch(items)), CompletePatch)[Qty(k)] == Int(StoredQuantity(items, k))
  {
  }

  /**
   * A registered row after the automatic-advance path of the customer flow: saved
   * once by staff, copied out when a waiting-page render saw "measured", then
   * confirmed. The "check latest state" button reaches confirmation without the copy.
   */
  function Finish(registered: Record, inputs: Record): Record
    requires Items in registered && registered[Items].ItemMap?
    requires forall f :: InForm(f) ==> f in inputs
  {
    var measured := Merge(registered, StaffPatch(inputs));
    Merge(Merge(measured, CopyPatch(measured[Items].items)), CompletePatch)
  }

  /** The finished row is completed and keeps the registered customer fields, items and total. */
  lemma FinishKeepsCustomerFields(registered: Record, inputs: Record)
    requires Items in registered && registered[Items].ItemMap?
    requires forall f :: InForm(f) ==> f in inputs
    ensures Get(Finish(registered, inputs), Status) == Completed
    ensures forall f :: f in registered && f in DraftFields ==> Get(Finish(registered, inputs), f) == registered[f]
  {
    var measured := StaffSaved(registered, inputs);
    var items := measured[Items].items;
    DraftFieldsUntouched(items);
    CopyThenConfirmKeeps(measured, items);
    forall f | f in registered && f in DraftFields ensures Get(Finish(registered, inputs), f) == registered[f] {
      assert Get(Finish(registered, inputs), f) == Get(measured, f);
    }
  }

  /** A staff save keeps the draft's fields of a row. */
  function StaffSaved(row: Record, inputs: Record): (r: Record)
    requires forall f :: InForm(f) ==> f in inputs
    ensures r == Merge(row, StaffPatch(inputs))
    ensures forall f :: f in row && f in DraftFields ==> f in r && r[f] == row[f]
  {
    DraftFieldsUntouched(map[]);
    Merge(row, StaffPatch(inputs))
  }

  /** The finished row's quantity columns hold the registered items, not what staff entered. */
  lemma FinishQuantities(registered: Record, inputs: Record)
    requires Items in registered && registered[Items].ItemMap?
    requires forall f :: InForm(f) ==> f in inputs
    ensures forall k :: Get(Finish(registered, inputs), Qty(k)) == Int(StoredQuantity(registered[Items].items, k))
  {
    var sp := StaffPatch(inputs);
    var measured := Merge(registered, sp);
    assert Items !in sp;
    assert measured[Items] == registered[Items];
    CopyThenConfirm(measured, registered[Items].items);
  }

  /** The finished row holds the staff's waists, lengths, sizes and memos. */
  lemma FinishMeasurements(registered: Record, inputs: Record)
    requires Items in registered && registered[Items].ItemMap?
    requires forall f :: InForm(f) ==> f in inputs
    ensures forall f :: InForm(f) && !f.Qty? ==> Get(Finish(registered, inputs), f) == inputs[f]
  {
    var sp := StaffPatch(inputs);
    var measured := Merge(registered, sp);
    var cp := CopyPatch(measured[Items].items);
    var copied := Merge(measured, cp);
    forall f | InForm(f) && !f.Qty? ensures Get(Finish(registered, inputs), f) == inputs[f] {
      assert f !in cp && f != Status;
      assert Finish(registered, inputs)[f] == copied[f] == measured[f] == sp[f];
    }
  }

  /**
   * For an order registered from a draft, the finished row keeps the draft's
   * fields, and its quantity columns are the draft's items.
   */
  lemma FinishedOrder(d: Record, inputs: Record)
    requires {Name, Zipcode, Address, TotalPrice, Items} <= d.Keys && d[Items].ItemMap?
    requires forall f :: InForm(f) ==> f in inputs
    ensures forall f :: f in d && f in DraftFields ==> Get(Finish(InsertRecord(d), inputs), f) == d[f]
    ensures forall k :: Get(Finish(InsertRecord(d), inputs), Qty(k)) == Int(StoredQuantity(d[Items].items, k))
  {
    var registered := InsertRecord(d);
    assert registered[Items] == d[Items];
    FinishKeepsCustomerFields(registered, inputs);
    FinishQuantities(registered, inputs);
    forall f | f in d && f in DraftFields ensures Get(Finish(registered, inputs), f) == d[f] {
      assert f in registered && registered[f] == d[f];
    }
  }

  /** When the draft was well formed, the finished row's total still agrees with its items. */
  lemma FinishedRowConsistent(d: Record, inputs: Record)
    requires WellFormedDraft(d)
    requires forall f :: InForm(f) ==> f in inputs
    ensures TotalConsistent(Finish(InsertRecord(d), inputs))
  {
    var registered := InsertRecord(d);
    InsertedTotalConsistent(d);
    var measured := Merge(registered, StaffPatch(inputs));
    WritesKeepTotalConsistent(registered, d[Items].items, inputs, d[Items].items);
    var copied := Merge(measured, CopyPatch(measured[Items].items));
    WritesKeepTotalConsistent(measured, d[Items].items, inputs, measured[Items].items);
    WritesKeepTotalConsistent(copied, d[Items].items, inputs, measured[Items].items);
  }
}
