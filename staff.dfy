/**
 * The staff measurement page: a declarative table of product kinds drives which
 * form fields exist, their value domains and default selections, and the patch
 * written when the form of one order is saved.
 */
module Staff {
  import opened Catalog
  import opened Records
  import opened Store

  /** Python's `list(range(start, stop, step))`; a zero step raises, so it is excluded. */
  function Range(start: int, stop: int, step: int): (r: seq<int>)
    requires step != 0
    decreases if step > 0 then stop - start else start - stop
  {
    if step > 0 && start < stop then [start] + Range(start + step, stop, step)
    else if step < 0 && start > stop then [start] + Range(start + step, stop, step)
    else []
  }

  /** A positive-step range lies in `[start, stop)`, and is empty exactly when `start >= stop`. */
  lemma {:induction false} RangeBounds(start: int, stop: int, step: int)
    requires step > 0
    ensures forall i :: 0 <= i < |Range(start, stop, step)| ==> start <= Range(start, stop, step)[i] < stop
    ensures |Range(start, stop, step)| > 0 <==> start < stop
    decreases stop - start
  {
    if start < stop {
      RangeBounds(start + step, stop, step);
      var rest := Range(start + step, stop, step);
      assert forall i :: 1 <= i < |[start] + rest| ==> ([start] + rest)[i] == rest[i - 1];
    }
  }

  /** A positive-step range is strictly increasing. */
  lemma {:induction false} RangeIncreasing(start: int, stop: int, step: int)
    requires step > 0
    ensures forall i, j :: 0 <= i < j < |Range(start, stop, step)| ==>
      Range(start, stop, step)[i] < Range(start, stop, step)[j]
    decreases stop - start
  {
    if start < stop {
      var rest := Range(start + step, stop, step);
      RangeIncreasing(start + step, stop, step);
      RangeBounds(start + step, stop, step);
      var r := [start] + rest;
      forall i, j | 0 <= i < j < |r| ensures r[i] < r[j] {
        assert r[j] == rest[j - 1];
        if i > 0 {
          assert r[i] == rest[i - 1];
        }
      }
    }
  }

  /** Element `i` of a positive-step range is `start + i * step`. */
  lemma {:induction false} RangeAt(start: int, stop: int, step: int, i: nat)
    requires step > 0 && i < |Range(start, stop, step)|
    ensures Range(start, stop, step)[i] == start + i * step
    decreases i
  {
    if i > 0 {
      RangeAt(start + step, stop, step, i - 1);
      assert i * step == (i - 1) * step + step;
    }
  }

  /** A positive-step range runs until the next step would reach `stop`. */
  lemma {:induction false} RangeLength(start: int, stop: int, step: int)
    requires step > 0 && start < stop
    ensures start + |Range(start, stop, step)| * step >= stop
    decreases stop - start
  {
    if start + step < stop {
      RangeLength(start + step, stop, step);
      var n := |Range(start + step, stop, step)|;
      assert (n + 1) * step == n * step + step;
    }
  }

  datatype IntRange = IntRange(start: int, stop: int, step: int)

  /** The `size_options` of a spec: a list used as it is, or `{"range": (mn, mx, step)}`. */
  datatype SizeOptions = Listed(choices: seq<Value>) | Stepped(range: IntRange)

  /** The two kinds of the spec table. A size spec may omit its options. */
  datatype Spec =
    | PantsSpec(waistRange: IntRange, lengthPlaceholder: string)
    | QtySizeMemoSpec(sizeOptions: Option<SizeOptions>)

  const LetterSizes: seq<Value> := [Str("S"), Str("M"), Str("L"), Str("XL")]
  const WaistRange: IntRange := IntRange(61, 111, 3)

  /** The spec table, keyed by product; the necktie has none. */
  function SpecOf(k: ProductKey): Option<Spec>
  {
    match k
    case Blazer => Some(QtySizeMemoSpec(Some(Listed(LetterSizes))))
    case Shirt => Some(QtySizeMemoSpec(Some(Listed(LetterSizes))))
    case Pants => Some(PantsSpec(WaistRange, "72"))
    case Vest => Some(QtySizeMemoSpec(Some(Listed(LetterSizes))))
    case Sweater => Some(QtySizeMemoSpec(Some(Listed(LetterSizes))))
    case Necktie => None
    case Sandals => Some(QtySizeMemoSpec(Some(Stepped(IntRange(22, 31, 1)))))
    case PeShirt => Some(QtySizeMemoSpec(Some(Listed(LetterSizes))))
    case PeHalfpants => Some(QtySizeMemoSpec(Some(Listed(LetterSizes))))
    case PeJacket => Some(QtySizeMemoSpec(Some(Listed(LetterSizes))))
    case PePants => Some(PantsSpec(WaistRange, "72"))
  }

  /** The table's keys in its order, which is the order the form lists them in. */
  const SpecOrder: seq<ProductKey> :=
    [Blazer, Shirt, Pants, Vest, Sweater, Sandals, PeShirt, PeHalfpants, PeJacket, PePants]

  /** Position of a key in `SpecOrder`; `|SpecOrder|` for the necktie, which is not there. */
  function SpecRank(k: ProductKey): (i: nat)
    ensures i <= |SpecOrder|
    ensures i < |SpecOrder| <==> SpecOf(k).Some?
    ensures i < |SpecOrder| ==> SpecOrder[i] == k
  {
    match k
    case Blazer => 0
    case Shirt => 1
    case Pants => 2
    case Vest => 3
    case Sweater => 4
    case Necktie => 10
    case Sandals => 5
    case PeShirt => 6
    case PeHalfpants => 7
    case PeJacket => 8
    case PePants => 9
  }

  lemma SpecOrderRanks()
    ensures forall i :: 0 <= i < |SpecOrder| ==> SpecRank(SpecOrder[i]) == i && SpecOf(SpecOrder[i]).Some?
  {
  }

  predicate IsPants(k: ProductKey)
  {
    SpecOf(k).Some? && SpecOf(k).value.PantsSpec?
  }

  predicate IsSized(k: ProductKey)
  {
    SpecOf(k).Some? && SpecOf(k).value.QtySizeMemoSpec?
  }

  /** The integers of a list, as stored values. */
  function IntValues(xs: seq<int>): (vs: seq<Value>)
    ensures |vs| == |xs| && forall i :: 0 <= i < |xs| ==> vs[i] == Int(xs[i])
  {
    seq(|xs|, i requires 0 <= i < |xs| => Int(xs[i]))
  }

  /** The waist choices of a pants spec: `list(range(*waist_range))`. */
  function WaistOptions(k: ProductKey): seq<int>
    requires IsPants(k)
  {
    var r := SpecOf(k).value.waistRange;
    Range(r.start, r.stop, r.step)
  }

  /** The size choices of a size spec; a missing `size_options` means S, M, L, XL. */
  function SizeChoices(k: ProductKey): seq<Value>
    requires IsSized(k)
  {
    match SpecOf(k).value.sizeOptions
    case None => LetterSizes
    case Some(Listed(c)) => c
    case Some(Stepped(r)) => IntValues(Range(r.start, r.stop, r.step))
  }

  /** The waist domain starts at 61, rises by 3, stays below 111 and ends at 109. */
  lemma WaistDomain(k: ProductKey)
    requires IsPants(k)
    ensures |WaistOptions(k)| == 17
    ensures WaistOptions(k)[0] == 61 && WaistOptions(k)[16] == 109
    ensures forall i :: 0 <= i < 17 ==> WaistOptions(k)[i] == 61 + 3 * i < 111
    ensures forall i, j :: 0 <= i < j < 17 ==> WaistOptions(k)[i] < WaistOptions(k)[j]
  {
    RangeIncreasing(61, 111, 3);
    RangeBounds(61, 111, 3);
    RangeLength(61, 111, 3);
    var r := Range(61, 111, 3);
    if |r| > 17 {
      RangeAt(61, 111, 3, 17);
      assert false;
    }
    forall i | 0 <= i < 17 ensures r[i] == 61 + 3 * i {
      RangeAt(61, 111, 3, i);
    }
  }

  /** The sandal sizes are the integers 22 to 30; the other size specs list S, M, L, XL. */
  lemma SizeDomains(k: ProductKey)
    requires IsSized(k)
    ensures k == Sandals ==> SizeChoices(k) == IntValues([22, 23, 24, 25, 26, 27, 28, 29, 30])
    ensures k != Sandals ==> SizeChoices(k) == LetterSizes
  {
    if k == Sandals {
      RangeBounds(22, 31, 1);
      RangeLength(22, 31, 1);
      var r := Range(22, 31, 1);
      forall i | 0 <= i < 9 ensures r[i] == 22 + i {
        RangeAt(22, 31, 1, i);
      }
      assert r == [22, 23, 24, 25, 26, 27, 28, 29, 30];
    }
  }

  /** `xs.index(x)`: the first position holding `x`. */
  function IndexOf<T(==)>(xs: seq<T>, x: T): (i: nat)
    requires x in xs
    ensures i < |xs| && xs[i] == x
    ensures forall j :: 0 <= j < i ==> xs[j] != x
  {
    if xs[0] == x then 0 else 1 + IndexOf(xs[1..], x)
  }

  /** The selectbox index: the position of `x` if it is an option, otherwise 0. */
  function SelectedIndex<T(==)>(options: seq<T>, x: T): (i: nat)
    requires |options| > 0
    ensures i < |options|
    ensures x in options ==> options[i] == x
    ensures x !in options ==> i == 0
  {
    if x in options then IndexOf(options, x) else 0
  }

  /** `int(...)` at the waist default only succeeds on an absent, falsy or integer value. */
  predicate WaistCoercible(order: Record, k: ProductKey)
  {
    !Truthy(Get(order, Waist(k))) || Get(order, Waist(k)).Int?
  }

  /** Default of the quantity input: `order.get(key, 0)`. */
  function QtyDefault(order: Record, k: ProductKey): (v: Value)
    ensures Qty(k) in order ==> v == order[Qty(k)]
    ensures Qty(k) !in order ==> v == Int(0)
  {
    GetOr(order, Qty(k), Int(0))
  }

  /**
   * Default waist selection: the stored waist when it is set and one of the
   * options, otherwise the first option.
   */
  function WaistDefault(order: Record, k: ProductKey): (w: int)
    requires IsPants(k) && WaistCoercible(order, k)
    ensures w in WaistOptions(k)
    ensures var v := Get(order, Waist(k));
            w == if Truthy(v) && v.i in WaistOptions(k) then v.i else WaistOptions(k)[0]
  {
    var options := WaistOptions(k);
    WaistDomain(k);
    var stored := Get(order, Waist(k));
    var dbWaist := if Truthy(stored) then stored.i else options[0];
    options[SelectedIndex(options, dbWaist)]
  }

  /** Default length: the stored length when truthy, otherwise the spec's placeholder. */
  function LengthDefault(order: Record, k: ProductKey): (v: Value)
    requires IsPants(k)
    ensures Truthy(Get(order, Length(k))) ==> v == order[Length(k)]
    ensures !Truthy(Get(order, Length(k))) ==> v == Str("72")
  {
    Or(Get(order, Length(k)), Str(SpecOf(k).value.lengthPlaceholder))
  }

  /** Default memo: the stored memo when truthy, otherwise the empty string. */
  function MemoDefault(order: Record, k: ProductKey): (v: Value)
    ensures Truthy(Get(order, Memo(k))) ==> v == order[Memo(k)]
    ensures !Truthy(Get(order, Memo(k))) ==> v == Str("")
  {
    Or(Get(order, Memo(k)), Str(""))
  }

  /** Default size selection: the stored size when it is a choice, otherwise the first choice. */
  function SizeDefault(order: Record, k: ProductKey): (v: Value)
    requires IsSized(k)
    ensures v in SizeChoices(k)
    ensures v == if Get(order, Size(k)) in SizeChoices(k) then order[Size(k)] else SizeChoices(k)[0]
  {
    var choices := SizeChoices(k);
    SizeDomains(k);
    assert IntValues([22, 23, 24, 25, 26, 27, 28, 29, 30])[0] == Int(22);
    choices[SelectedIndex(choices, Get(order, Size(k)))]
  }

  /** The fields the staff form of an order edits. */
  predicate InForm(f: Field)
  {
    match f
    case Qty(k) => SpecOf(k).Some?
    case Memo(k) => SpecOf(k).Some?
    case Waist(k) => IsPants(k)
    case Length(k) => IsPants(k)
    case Size(k) => IsSized(k)
    case _ => false
  }

  /** The table position of a form field's product; `|SpecOrder|` for other fields. */
  function FieldRank(f: Field): nat
  {
    match f
    case Qty(k) => SpecRank(k)
    case Memo(k) => SpecRank(k)
    case Waist(k) => SpecRank(k)
    case Length(k) => SpecRank(k)
    case Size(k) => SpecRank(k)
    case _ => |SpecOrder|
  }

  /** The form's fields are exactly: quantity and memo of every spec key, waist and length of pants, size of sized kinds. */
  lemma FormFields(f: Field)
    ensures InForm(f) <==>
      || (f.Qty? && f.product != Necktie)
      || (f.Memo? && f.product != Necktie)
      || ((f.Waist? || f.Length?) && (f.product == Pants || f.product == PePants))
      || (f.Size? && f.product in {Blazer, Shirt, Vest, Sweater, Sandals, PeShirt, PeHalfpants, PeJacket})
  {
  }

  /**
   * The fields one spec of the table writes: quantity, then waist, length and memo
   * for pants, or size and memo for the other kind.
   */
  function SpecFields(inputs: Record, k: ProductKey): (p: Record)
    requires SpecOf(k).Some?
    requires forall f :: InForm(f) ==> f in inputs
    ensures forall f :: f in p <==> InForm(f) && FieldRank(f) == SpecRank(k)
    ensures forall f :: f in p ==> p[f] == inputs[f]
  {
    SpecOrderRanks();
    match SpecOf(k).value
    case PantsSpec(_, _) =>
      assert IsPants(k) && InForm(Qty(k)) && InForm(Waist(k)) && InForm(Length(k)) && InForm(Memo(k));
      map[Qty(k) := inputs[Qty(k)], Waist(k) := inputs[Waist(k)],
          Length(k) := inputs[Length(k)], Memo(k) := inputs[Memo(k)]]
    case QtySizeMemoSpec(_) =>
      assert IsSized(k) && InForm(Qty(k)) && InForm(Size(k)) && InForm(Memo(k));
      map[Qty(k) := inputs[Qty(k)], Size(k) := inputs[Size(k)], Memo(k) := inputs[Memo(k)]]
  }

  /** Whether a submitted value lies in the domain of its widget. */
  predicate InWidgetDomain(f: Field, v: Value)
    requires InForm(f)
  {
    match f
    case Qty(_) => v.Int? && 0 <= v.i <= 20
    case Waist(k) => v.Int? && v.i in WaistOptions(k)
    case Size(k) => v in SizeChoices(k)
    case _ => v.Str?
  }

  /** A submitted form: a value for every form field, each in its widget's domain. */
  ghost predicate Submitted(inputs: Record)
  {
    forall f :: InForm(f) ==> f in inputs && InWidgetDomain(f, inputs[f])
  }

  /** The patch saved for one order: every form field's submitted value, and status "measured". */
  function StaffPatch(inputs: Record): (p: Record)
    requires forall f :: InForm(f) ==> f in inputs
    ensures forall f :: f in p <==> f == Status || InForm(f)
    ensures p[Status] == Measured
    ensures forall f :: InForm(f) ==> p[f] == inputs[f]
  {
    (map f | f in inputs && InForm(f) :: inputs[f])[Status := Measured]
  }

  /**
   * The form-building loop over the spec table: one quantity per spec, waist,
   * length and memo for pants, size and memo for sized kinds.
   */
  method BuildPatch(inputs: Record) returns (patch: Record)
    requires forall f :: InForm(f) ==> f in inputs
    ensures forall f :: f in patch <==> InForm(f)
    ensures forall f :: f in patch ==> patch[f] == inputs[f]
  {
    SpecOrderRanks();
    patch := map[];
    var i := 0;
    while i < |SpecOrder|
      invariant 0 <= i <= |SpecOrder|
      invariant forall f :: f in patch <==> InForm(f) && FieldRank(f) < i
      invariant forall f :: f in patch ==> patch[f] == inputs[f]
    {
      var key := SpecOrder[i];
      patch := patch + SpecFields(inputs, key);
      i := i + 1;
    }
  }

  /**
   * The save button of one order's form. Nothing happens unless staff are logged
   * in; otherwise the form's values and status "measured" are merged into the row,
   * whatever its status was.
   */
  method SaveMeasurements(store: OrderStore, loggedIn: bool, id: nat, inputs: Record)
    requires store.Valid()
    requires id in store.rows ==> forall k :: WaistCoercible(store.rows[id], k)
    requires Submitted(inputs)
    modifies store
    ensures store.Valid() && store.nextId == old(store.nextId)
    ensures store.rows == if loggedIn && id in old(store.rows)
                          then old(store.rows)[id := Merge(old(store.rows)[id], StaffPatch(inputs))]
                          else old(store.rows)
  {
    if loggedIn {
      var patch := BuildPatch(inputs);
      patch := patch[Status := Measured];
      assert patch == StaffPatch(inputs);
      store.Update(id, patch);
    }
  }
}
