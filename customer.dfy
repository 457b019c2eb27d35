/**
 * The customer page: a session that moves through the phases
 * login, input, confirm, complete (waiting for measurement), final_confirm and done,
 * keeping a draft order and the id of the stored order.
 */
module Customer {
  import opened Catalog
  import opened Records
  import opened Store

  datatype Phase = Login | Input | Confirm | Complete | FinalConfirm | Done

  /** The phase changes one user action can cause; logout returns to Login. */
  predicate Step(from: Phase, to: Phase)
  {
    || from == to
    || (from == Login && to == Input)
    || (from == Input && to == Confirm)
    || (from == Confirm && to == Input)
    || (from == Confirm && to == Complete)
    || (from == Complete && to == FinalConfirm)
    || (from == FinalConfirm && to == Done)
    || ((from == Input || from == Done) && to == Login)
  }

  /** The fields of the draft the input page keeps in the session. */
  const DraftFields: set<Field> := {Name, Zipcode, Address, Phone, Email, Items, TotalPrice}

  /**
   * A draft that passed the input page's check: required fields non-empty, one
   * quantity per product, and a stored total that equals the computed total and is not zero.
   */
  ghost predicate WellFormedDraft(d: Record)
  {
    && d.Keys == DraftFields
    && d[Name].Str? && d[Name].s != ""
    && d[Address].Str? && d[Address].s != ""
    && d[Zipcode].Str? && d[Phone].Str? && d[Email].Str?
    && d[Items].ItemMap? && Selectable(d[Items].items, 10)
    && d[TotalPrice] == Int(Total(d[Items].items))
    && Total(d[Items].items) > 0
  }

  /** The draft built when the input page's check passes. */
  function Draft(name: string, zipcode: string, address: string, phone: string, email: string,
                 items: Quantities): (d: Record)
    requires name != "" && address != ""
    requires Selectable(items, 10) && Total(items) != 0
    ensures WellFormedDraft(d)
    ensures d[Name] == Str(name) && d[Zipcode] == Str(zipcode) && d[Address] == Str(address)
    ensures d[Phone] == Str(phone) && d[Email] == Str(email) && d[Items] == ItemMap(items)
  {
    TotalZeroIff(items);
    map[Name := Str(name), Zipcode := Str(zipcode), Address := Str(address),
        Phone := Str(phone), Email := Str(email),
        Items := ItemMap(items), TotalPrice := Int(Total(items))]
  }

  /**
   * The row inserted when the customer confirms: the draft's customer fields,
   * items and total, with status "waiting". Phone and email are read with `get`,
   * the other fields by subscript.
   */
  function InsertRecord(d: Record): (r: Record)
    requires {Name, Zipcode, Address, TotalPrice, Items} <= d.Keys
    ensures r.Keys == DraftFields + {Status}
    ensures r[Status] == Waiting
    ensures forall f :: f in d && f in DraftFields ==> r[f] == d[f]
    ensures Phone !in d ==> r[Phone] == Null
    ensures Email !in d ==> r[Email] == Null
  {
    map[Name := d[Name], Zipcode := d[Zipcode], Address := d[Address],
        Phone := Get(d, Phone), Email := Get(d, Email),
        TotalPrice := d[TotalPrice], Status := Waiting, Items := d[Items]]
  }

  /** A well-formed draft is stored as it is, with status "waiting" added. */
  lemma InsertedDraft(d: Record)
    requires WellFormedDraft(d)
    ensures InsertRecord(d) == d[Status := Waiting]
  {
  }

  /** `row["items"].get(k, 0)`: the stored quantity of a product, zero when it has none. */
  function StoredQuantity(items: Quantities, k: ProductKey): int
  {
    if k in items then items[k] else 0
  }

  /**
   * The waiting page renders only when the row has an `items` dictionary whose
   * quantities are valid indices of the 0..10 selection widgets.
   */
  predicate WaitFormRenders(row: Record)
  {
    && Items in row && row[Items].ItemMap?
    && forall k :: 0 <= StoredQuantity(row[Items].items, k) <= 10
  }

  /** The patch written by the waiting page's quantity update: items and total only. */
  function QuantityPatch(items: Quantities): (p: Record)
    requires Covers(items)
    ensures p.Keys == {Items, TotalPrice}
  {
    map[Items := ItemMap(items), TotalPrice := Int(Total(items))]
  }

  /**
   * The patch written once the stored status is "measured": every product key of
   * the price table becomes a top-level column holding its stored quantity.
   */
  function CopyPatch(items: Quantities): (p: Record)
    ensures forall f :: f in p <==> f.Qty?
    ensures forall k :: p[Qty(k)] == Int(StoredQuantity(items, k))
  {
    ProductsDistinct();
    map k | k in Products :: Qty(k) := Int(StoredQuantity(items, k))
  }

  /** The status patch written by the final confirmation. */
  const CompletePatch: Record := map[Status := Completed]

  /** The total stored with a row agrees with its items. */
  ghost predicate TotalConsistent(row: Record)
  {
    (Items in row || TotalPrice in row) ==>
      && Items in row && row[Items].ItemMap? && Covers(row[Items].items)
      && TotalPrice in row && row[TotalPrice] == Int(Total(row[Items].items))
  }

  class CustomerSession {
    var loggedIn: bool
    var phase: Phase
    var orderData: Record
    var orderId: Option<nat>

    ghost predicate Valid()
      reads this
    {
      && (loggedIn <==> phase != Login)
      && (phase == Login ==> orderData == map[])
      && (phase == Input ==> orderData == map[] || WellFormedDraft(orderData))
      && (phase != Login && phase != Input ==> WellFormedDraft(orderData))
      && (orderId.Some? <==> phase in {Complete, FinalConfirm, Done})
    }

    /** The state of a session that has just started, and of one after logout. */
    ghost predicate Initial()
      reads this
    {
      !loggedIn && phase == Login && orderData == map[] && orderId == None
    }

    constructor ()
      ensures Valid() && Initial()
    {
      loggedIn := false;
      phase := Login;
      orderData := map[];
      orderId := None;
    }

    /** The login button; `credentialsOk` is whether both entered credentials match. */
    method SignIn(credentialsOk: bool)
      requires Valid()
      modifies this
      ensures Valid() && Step(old(phase), phase)
      ensures orderData == old(orderData) && orderId == old(orderId)
      ensures if !old(loggedIn) && credentialsOk then loggedIn && phase == Input
              else loggedIn == old(loggedIn) && phase == old(phase)
    {
      if !loggedIn && credentialsOk {
        loggedIn := true;
        phase := Input;
      }
    }

    /** The logout buttons of the input and done pages clear the whole session. */
    method SignOut()
      requires Valid()
      modifies this
      ensures Valid() && Step(old(phase), phase)
      ensures if old(phase) == Input || old(phase) == Done then Initial()
              else phase == old(phase) && loggedIn == old(loggedIn)
                   && orderData == old(orderData) && orderId == old(orderId)
    {
      if phase == Input || phase == Done {
        loggedIn := false;
        phase := Login;
        orderData := map[];
        orderId := None;
      }
    }

    /**
     * The input page's "next" button. `choice` holds the quantity widget of each
     * product in table order. The draft is stored and the phase moves to Confirm
     * only when name and address are non-empty and some quantity is positive;
     * otherwise nothing changes.
     */
    method SubmitInput(name: string, zipcode: string, address: string, phone: string, email: string,
                       choice: seq<int>)
      requires Valid()
      requires Choices(choice, 10)
      modifies this
      ensures Valid() && Step(old(phase), phase)
      ensures loggedIn == old(loggedIn) && orderId == old(orderId)
      ensures var accepted := old(phase) == Input && name != "" && address != ""
                              && exists i :: 0 <= i < |choice| && choice[i] > 0;
              if accepted then
                && phase == Confirm
                && orderData[Name] == Str(name) && orderData[Zipcode] == Str(zipcode)
                && orderData[Address] == Str(address)
                && orderData[Phone] == Str(phone) && orderData[Email] == Str(email)
                && (forall i :: 0 <= i < |Products| ==> orderData[Items].items[Products[i]] == choice[i])
              else phase == old(phase) && orderData == old(orderData)
    {
      if phase == Input {
        var items := CollectQuantities(choice);
        var total := Total(items);
        TotalZeroIff(items);
        ProductsDistinct();
        assert total == 0 <==> forall i :: 0 <= i < |choice| ==> choice[i] == 0 by {
          if total != 0 {
            var k :| items[k] != 0;
            assert choice[Position(k)] != 0;
          }
        }
        if name == "" || address == "" || total == 0 {
          // the page shows an error and stays on the input phase
        } else {
          orderData := Draft(name, zipcode, address, phone, email, items);
          phase := Confirm;
        }
      }
    }

    /** The confirm page's "edit" button goes back to input, keeping the draft. */
    method Back()
      requires Valid()
      modifies this
      ensures Valid() && Step(old(phase), phase)
      ensures loggedIn == old(loggedIn) && orderData == old(orderData) && orderId == old(orderId)
      ensures phase == if old(phase) == Confirm then Input else old(phase)
    {
      if phase == Confirm {
        phase := Input;
      }
    }

    /**
     * The confirm page's "measure" button inserts the draft with status "waiting",
     * remembers the new id and moves to Complete.
     */
    method Register(store: OrderStore)
      requires Valid() && store.Valid()
      modifies this, store
      ensures Valid() && store.Valid() && Step(old(phase), phase)
      ensures loggedIn == old(loggedIn) && orderData == old(orderData)
      ensures if old(phase) == Confirm then
                && phase == Complete
                && orderId == Some(old(store.nextId))
                && store.rows == old(store.rows)[old(store.nextId) := old(orderData)[Status := Waiting]]
                && store.nextId == old(store.nextId) + 1
              else
                phase == old(phase) && orderId == old(orderId)
                && store.rows == old(store.rows) && store.nextId == old(store.nextId)
    {
      if phase == Confirm {
        InsertedDraft(orderData);
        var id := store.Insert(InsertRecord(orderData));
        orderId := Some(id);
        phase := Complete;
      }
    }

    /** The stored row of this session's order, when there is one. */
    function CurrentRow(store: OrderStore): (r: Option<Record>)
      reads this, store
      ensures r.Some? <==> orderId.Some? && orderId.value in store.rows
      ensures r.Some? ==> r.value == store.rows[orderId.value]
    {
      if orderId.Some? then store.Fetch(orderId.value) else None
    }

    /** Whether the waiting page renders for the current state. */
    predicate OnWaitingPage(store: OrderStore)
      reads this, store
    {
      phase == Complete && CurrentRow(store).Some? && WaitFormRenders(CurrentRow(store).value)
    }

    /**
     * The waiting page's quantity update: a new quantity per product, in table
     * order, is written with its recomputed total; the session does not change and
     * neither does any other column of the row, the status included.
     */
    method UpdateQuantities(store: OrderStore, choice: seq<int>)
      requires Valid() && store.Valid()
      requires Choices(choice, 10)
      modifies store
      ensures store.Valid() && store.nextId == old(store.nextId)
      ensures if old(OnWaitingPage(store)) then
                exists items: Quantities ::
                  && Selectable(items, 10)
                  && (forall i :: 0 <= i < |Products| ==> items[Products[i]] == choice[i])
                  && store.rows == old(store.rows)[orderId.value :=
                                     Merge(old(store.rows)[orderId.value], QuantityPatch(items))]
              else store.rows == old(store.rows)
    {
      if OnWaitingPage(store) {
        var id := orderId.value;
        var items, total := RecomputeTotal(choice);
        var patch := map[Items := ItemMap(items), TotalPrice := Int(total)];
        assert patch == QuantityPatch(items);
        store.Update(id, patch);
      }
    }

    /**
     * The waiting page's "check latest state" button: when the stored status is
     * "measured" the phase moves to FinalConfirm; no column is written on this path.
     */
    method CheckLatest(store: OrderStore)
      requires Valid() && store.Valid()
      modifies this
      ensures Valid() && Step(old(phase), phase)
      ensures loggedIn == old(loggedIn) && orderData == old(orderData) && orderId == old(orderId)
      ensures phase == if old(OnWaitingPage(store)) && Get(old(CurrentRow(store)).value, Status) == Measured
                       then FinalConfirm else old(phase)
    {
      if OnWaitingPage(store) && Get(CurrentRow(store).value, Status) == Measured {
        phase := FinalConfirm;
      }
    }

    /**
     * A waiting-page render without a button press: when the stored status is
     * "measured" the phase moves to FinalConfirm and the stored items are copied
     * into the per-product top-level columns.
     */
    method AutoAdvance(store: OrderStore)
      requires Valid() && store.Valid()
      modifies this, store
      ensures Valid() && store.Valid() && Step(old(phase), phase)
      ensures store.nextId == old(store.nextId)
      ensures loggedIn == old(loggedIn) && orderData == old(orderData) && orderId == old(orderId)
      ensures if old(OnWaitingPage(store)) && Get(old(store.rows)[orderId.value], Status) == Measured then
                && phase == FinalConfirm
                && store.rows == old(store.rows)[orderId.value :=
                     Merge(old(store.rows)[orderId.value], CopyPatch(old(store.rows)[orderId.value][Items].items))]
              else phase == old(phase) && store.rows == old(store.rows)
    {
      if OnWaitingPage(store) {
        var id := orderId.value;
        var row := store.rows[id];
        if Get(row, Status) == Measured {
          phase := FinalConfirm;
          var items := GetOr(row, Items, ItemMap(map[])).items;
          store.Update(id, CopyPatch(items));
        }
      }
    }

    /** The final confirmation writes status "completed" and moves to Done. */
    method ConfirmOrder(store: OrderStore)
      requires Valid() && store.Valid()
      modifies this, store
      ensures Valid() && store.Valid() && Step(old(phase), phase)
      ensures store.nextId == old(store.nextId)
      ensures loggedIn == old(loggedIn) && orderData == old(orderData) && orderId == old(orderId)
      ensures if old(phase) == FinalConfirm && old(CurrentRow(store)).Some? then
                && phase == Done
                && store.rows == old(store.rows)[orderId.value :=
                     Merge(old(store.rows)[orderId.value], CompletePatch)]
              else phase == old(phase) && store.rows == old(store.rows)
    {
      if phase == FinalConfirm && CurrentRow(store).Some? {
        store.Update(orderId.value, CompletePatch);
        phase := Done;
      }
    }
  }
}
