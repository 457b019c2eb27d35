/**
 * The minimal customer page: the view is derived from the remembered order id and
 * the stored status; the session holds only that id and the final-done flag.
 */
module QuickOrder {
  import opened Records
  import opened Store

  /** What the main part of the page shows. */
  datatype MainView =
    | InputForm       // no order yet: the name form
    | WaitingNotice   // status "waiting": a notice, then a re-poll
    | FinalReview     // status "measured": the measurements and the confirm button
    | Blank           // any other status: nothing in the main part
    | Failed          // the stored row is missing: the fetch raises

  datatype Screen = Screen(main: MainView, thanks: bool)

  class QuickSession {
    var userOrderId: Option<nat>
    var finalDone: bool

    ghost predicate Valid()
      reads this
    {
      finalDone ==> userOrderId.Some?
    }

    constructor ()
      ensures Valid() && userOrderId == None && !finalDone
    {
      userOrderId := None;
      finalDone := false;
    }

    /**
     * The page as one run renders it: the input form exactly when no order id is
     * remembered, otherwise a view chosen by the stored status; the thank-you part
     * whenever the final-done flag is set and the run did not fail.
     */
    function Render(store: OrderStore): (s: Screen)
      reads this, store
      ensures s.main == InputForm <==> userOrderId == None
      ensures s.main == Failed <==> userOrderId.Some? && userOrderId.value !in store.rows
      ensures s.main == WaitingNotice <==>
        userOrderId.Some? && userOrderId.value in store.rows
        && Get(store.rows[userOrderId.value], Status) == Waiting
      ensures s.main == FinalReview <==>
        userOrderId.Some? && userOrderId.value in store.rows
        && Get(store.rows[userOrderId.value], Status) == Measured
      ensures s.thanks <==> finalDone && s.main != Failed && s.main != WaitingNotice
    {
      if userOrderId.None? then Screen(InputForm, finalDone)
      else
        match store.Fetch(userOrderId.value)
        case None => Screen(Failed, false)
        case Some(row) =>
          var status := Get(row, Status);
          var main := if status == Waiting then WaitingNotice
                      else if status == Measured then FinalReview
                      else Blank;
          Screen(main, finalDone && main != WaitingNotice)
    }

    /**
     * The input form's submit: a row holding only the name and status "waiting" is
     * inserted, whatever the name, and its id is remembered.
     */
    method Submit(store: OrderStore, name: string)
      requires Valid() && store.Valid()
      modifies this, store
      ensures Valid() && store.Valid() && finalDone == old(finalDone)
      ensures if old(userOrderId) == None then
                && userOrderId == Some(old(store.nextId))
                && store.rows == old(store.rows)[old(store.nextId) := map[Name := Str(name), Status := Waiting]]
                && store.nextId == old(store.nextId) + 1
              else
                userOrderId == old(userOrderId)
                && store.rows == old(store.rows) && store.nextId == old(store.nextId)
    {
      if userOrderId == None {
        var id := store.Insert(map[Name := Str(name), Status := Waiting]);
        userOrderId := Some(id);
      }
    }

    /** One poll of the waiting page: it reads the row and writes nothing. */
    method Poll(store: OrderStore) returns (s: Screen)
      requires Valid()
      ensures s == Render(store)
    {
      if userOrderId.None? {
        s := Screen(InputForm, finalDone);
      } else {
        var row := store.Fetch(userOrderId.value);
        if row.None? {
          s := Screen(Failed, false);
        } else if Get(row.value, Status) == Waiting {
          s := Screen(WaitingNotice, false);
        } else if Get(row.value, Status) == Measured {
          s := Screen(FinalReview, finalDone);
        } else {
          s := Screen(Blank, finalDone);
        }
      }
    }

    /** The final review's confirm button writes status "completed" and sets the final-done flag. */
    method Confirm(store: OrderStore)
      requires Valid() && store.Valid()
      modifies this, store
      ensures Valid() && store.Valid() && store.nextId == old(store.nextId)
      ensures userOrderId == old(userOrderId)
      ensures if old(Render(store)).main == FinalReview then
                && finalDone
                && store.rows == old(store.rows)[userOrderId.value :=
                     Merge(old(store.rows)[userOrderId.value], map[Status := Completed])]
              else finalDone == old(finalDone) && store.rows == old(store.rows)
      ensures old(Render(store)).main == FinalReview ==> Render(store) == Screen(Blank, true)
    {
      if Render(store).main == FinalReview {
        store.Update(userOrderId.value, map[Status := Completed]);
        finalDone := true;
      }
    }

    /** "Back to top" after the final confirmation clears the session, so the input form shows again. */
    method BackToTop()
      requires Valid()
      modifies this
      ensures Valid()
      ensures if old(finalDone) then userOrderId == None && !finalDone
              else userOrderId == old(userOrderId) && finalDone == old(finalDone)
    {
      if finalDone {
        userOrderId := None;
        finalDone := false;
      }
    }
  }

  /** After "back to top" the page shows the input form and no thank-you part. */
  lemma BackToTopShowsInput(session: QuickSession, store: OrderStore)
    requires session.userOrderId == None && !session.finalDone
    ensures session.Render(store) == Screen(InputForm, false)
  {
  }
}
