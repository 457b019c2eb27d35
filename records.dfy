/**
 * Rows of the shared `orders` table: the columns the three pages read and write,
 * the values they hold, and the field-by-field merge that a partial update performs.
 */
module Records {
  import opened Catalog

  datatype Option<T> = None | Some(value: T)

  /**
   * A column of the `orders` table. The per-product columns named `"<key>"`,
   * `"<key>_waist"`, `"<key>_length"`, `"<key>_memo"` and `"<key>_size"` are
   * `Qty(k)`, `Waist(k)`, `Length(k)`, `Memo(k)` and `Size(k)`.
   */
  datatype Field =
    | Name | Zipcode | Address | Phone | Email | TotalPrice | Status | Items
    | Qty(product: ProductKey)
    | Waist(product: ProductKey)
    | Length(product: ProductKey)
    | Memo(product: ProductKey)
    | Size(product: ProductKey)

  /** The column name the storage layer uses for a field. */
  function ColumnName(f: Field): string
  {
    match f
    case Name => "name"
    case Zipcode => "zipcode"
    case Address => "address"
    case Phone => "phone"
    case Email => "email"
    case TotalPrice => "total_price"
    case Status => "status"
    case Items => "items"
    case Qty(k) => KeyName(k)
    case Waist(k) => KeyName(k) + "_waist"
    case Length(k) => KeyName(k) + "_length"
    case Memo(k) => KeyName(k) + "_memo"
    case Size(k) => KeyName(k) + "_size"
  }

  /** The product whose key string is `s`, if any. */
  function ProductOfName(s: string): (r: Option<ProductKey>)
    ensures r.Some? ==> KeyName(r.value) == s
  {
    if s == "blazer" then Some(Blazer)
    else if s == "shirt" then Some(Shirt)
    else if s == "pants" then Some(Pants)
    else if s == "vest" then Some(Vest)
    else if s == "sweater" then Some(Sweater)
    else if s == "necktie" then Some(Necktie)
    else if s == "sandals" then Some(Sandals)
    else if s == "pe_shirt" then Some(PeShirt)
    else if s == "pe_halfpants" then Some(PeHalfpants)
    else if s == "pe_jacket" then Some(PeJacket)
    else if s == "pe_pants" then Some(PePants)
    else None
  }

  lemma ProductOfKeyName(k: ProductKey)
    ensures ProductOfName(KeyName(k)) == Some(k)
  {
  }

  predicate HasSuffix(s: string, t: string)
  {
    |t| <= |s| && s[|s| - |t|..] == t
  }

  /** The product of a per-product column `"<key><suffix>"`, if `s` is one. */
  function ProductWithSuffix(s: string, suffix: string): Option<ProductKey>
  {
    if HasSuffix(s, suffix) then ProductOfName(s[..|s| - |suffix|]) else None
  }

  /** The field stored under the column name `s`, if any: the inverse of `ColumnName`. */
  function FieldOfColumn(s: string): Option<Field>
  {
    if s == "name" then Some(Name)
    else if s == "zipcode" then Some(Zipcode)
    else if s == "address" then Some(Address)
    else if s == "phone" then Some(Phone)
    else if s == "email" then Some(Email)
    else if s == "total_price" then Some(TotalPrice)
    else if s == "status" then Some(Status)
    else if s == "items" then Some(Items)
    else if HasSuffix(s, "_waist") then
      match ProductWithSuffix(s, "_waist") case Some(k) => Some(Waist(k)) case None => None
    else if HasSuffix(s, "_length") then
      match ProductWithSuffix(s, "_length") case Some(k) => Some(Length(k)) case None => None
    else if HasSuffix(s, "_memo") then
      match ProductWithSuffix(s, "_memo") case Some(k) => Some(Memo(k)) case None => None
    else if HasSuffix(s, "_size") then
      match ProductWithSuffix(s, "_size") case Some(k) => Some(Size(k)) case None => None
    else match ProductOfName(s) case Some(k) => Some(Qty(k)) case None => None
  }

  /** The column names of the customer and order fields. */
  predicate FixedColumnName(s: string)
  {
    s == "name" || s == "zipcode" || s == "address" || s == "phone" || s == "email"
    || s == "total_price" || s == "status" || s == "items"
  }

  /** No fixed column name ends like a per-product suffix: their last two characters differ. */
  lemma FixedColumnEnding(s: string)
    requires FixedColumnName(s)
    ensures |s| >= 2
    ensures var e := s[|s| - 2..]; e != "st" && e != "th" && e != "mo" && e != "ze"
  {
  }

  /** No fixed column name is a product's key string. */
  lemma FixedColumnsAreNotKeys(k: ProductKey)
    ensures !FixedColumnName(KeyName(k))
  {
  }

  lemma SuffixOfAppend(a: string, b: string)
    ensures HasSuffix(a + b, b) && (a + b)[..|a + b| - |b|] == a
  {
    assert (a + b)[|a + b| - |b|..] == b;
  }

  /** A column `a + b` that is a fixed column name would end with `b`'s last two characters. */
  lemma NotFixedColumn(a: string, b: string)
    requires |b| >= 2 && var e := b[|b| - 2..]; e == "st" || e == "th" || e == "mo" || e == "ze"
    ensures !FixedColumnName(a + b)
  {
    var s := a + b;
    assert s[|s| - 2..] == b[|b| - 2..];
    if FixedColumnName(s) {
      FixedColumnEnding(s);
    }
  }

  /** `a + b` does not end with `t` when `b` rules it out on its own. */
  lemma NoSuffixOfAppend(a: string, b: string, t: string)
    requires if |t| <= |b| then b[|b| - |t|..] != t else b != t[|t| - |b|..]
    ensures !HasSuffix(a + b, t)
  {
  }

  /** No column name without a per-product suffix ends with one. */
  predicate Unsuffixed(s: string)
  {
    !HasSuffix(s, "_waist") && !HasSuffix(s, "_length") && !HasSuffix(s, "_memo") && !HasSuffix(s, "_size")
  }

  lemma KeyNameUnsuffixed(k: ProductKey)
    ensures Unsuffixed(KeyName(k))
  {
  }

  /** A key string followed by a per-product suffix is read back as that product's column. */
  lemma WaistColumn(a: string, k: ProductKey)
    requires ProductOfName(a) == Some(k)
    ensures FieldOfColumn(a + "_waist") == Some(Waist(k))
  {
    SuffixOfAppend(a, "_waist");
    NotFixedColumn(a, "_waist");
  }

  lemma LengthColumn(a: string, k: ProductKey)
    requires ProductOfName(a) == Some(k)
    ensures FieldOfColumn(a + "_length") == Some(Length(k))
  {
    SuffixOfAppend(a, "_length");
    NotFixedColumn(a, "_length");
    NoSuffixOfAppend(a, "_length", "_waist");
  }

  lemma MemoColumn(a: string, k: ProductKey)
    requires ProductOfName(a) == Some(k)
    ensures FieldOfColumn(a + "_memo") == Some(Memo(k))
  {
    SuffixOfAppend(a, "_memo");
    NotFixedColumn(a, "_memo");
    NoSuffixOfAppend(a, "_memo", "_waist");
    NoSuffixOfAppend(a, "_memo", "_length");
  }

  lemma SizeColumn(a: string, k: ProductKey)
    requires ProductOfName(a) == Some(k)
    ensures FieldOfColumn(a + "_size") == Some(Size(k))
  {
    SuffixOfAppend(a, "_size");
    NotFixedColumn(a, "_size");
    NoSuffixOfAppend(a, "_size", "_waist");
    NoSuffixOfAppend(a, "_size", "_length");
    NoSuffixOfAppend(a, "_size", "_memo");
  }

  lemma QtyRoundTrip(k: ProductKey)
    ensures FieldOfColumn(ColumnName(Qty(k))) == Some(Qty(k))
  {
    KeyNameUnsuffixed(k);
    FixedColumnsAreNotKeys(k);
    ProductOfKeyName(k);
  }

  /** Every field is read back from the column name it is stored under. */
  lemma ColumnNameRoundTrip(f: Field)
    ensures FieldOfColumn(ColumnName(f)) == Some(f)
  {
    match f {
      case Waist(k) => ProductOfKeyName(k); WaistColumn(KeyName(k), k);
      case Length(k) => ProductOfKeyName(k); LengthColumn(KeyName(k), k);
      case Memo(k) => ProductOfKeyName(k); MemoColumn(KeyName(k), k);
      case Size(k) => ProductOfKeyName(k); SizeColumn(KeyName(k), k);
      case Qty(k) => QtyRoundTrip(k);
      case _ =>
    }
  }

  /** Distinct fields are stored under distinct column names. */
  lemma ColumnNameInjective(f: Field, g: Field)
    requires ColumnName(f) == ColumnName(g)
    ensures f == g
  {
    ColumnNameRoundTrip(f);
    ColumnNameRoundTrip(g);
  }

  /** A stored value: SQL NULL / Python None, an integer, a string, or the `items` dictionary. */
  datatype Value = Null | Int(i: int) | Str(s: string) | ItemMap(items: Quantities)

  type Record = map<Field, Value>

  const Waiting: Value := Str("waiting")
  const Measured: Value := Str("measured")
  const Completed: Value := Str("completed")

  /** Python truthiness, which decides what `x or default` yields. */
  predicate Truthy(v: Value)
  {
    match v
    case Null => false
    case Int(i) => i != 0
    case Str(s) => s != ""
    case ItemMap(m) => m != map[]
  }

  /** `row.get(f)`: the stored value, or None when the column is absent. */
  function Get(row: Record, f: Field): (v: Value)
    ensures f !in row ==> v == Null
  {
    if f in row then row[f] else Null
  }

  /** `row.get(f, d)`. */
  function GetOr(row: Record, f: Field, d: Value): (v: Value)
    ensures f in row ==> v == row[f]
    ensures f !in row ==> v == d
  {
    if f in row then row[f] else d
  }

  /** `a or b` on stored values. */
  function Or(a: Value, b: Value): (v: Value)
    ensures Truthy(a) ==> v == a
    ensures !Truthy(a) ==> v == b
  {
    if Truthy(a) then a else b
  }

  /**
   * A partial update: every field of the patch takes the patch's value and every
   * other field keeps its stored value; nothing is removed.
   */
  function Merge(row: Record, patch: Record): (r: Record)
    ensures r.Keys == row.Keys + patch.Keys
    ensures forall f :: f in patch ==> r[f] == patch[f]
    ensures forall f :: f in row && f !in patch ==> r[f] == row[f]
  {
    row + patch
  }

  /** Applying the same patch twice leaves the row as applying it once. */
  lemma MergeIdempotent(row: Record, patch: Record)
    ensures Merge(Merge(row, patch), patch) == Merge(row, patch)
  {
  }

  /** Two patches with disjoint fields can be applied in either order. */
  lemma MergeCommutes(row: Record, p: Record, q: Record)
    requires p.Keys !! q.Keys
    ensures Merge(Merge(row, p), q) == Merge(Merge(row, q), p)
  {
    var a := Merge(Merge(row, p), q);
    var b := Merge(Merge(row, q), p);
    assert a.Keys == b.Keys;
    forall f | f in a ensures a[f] == b[f] {
      if f in p {
        assert f !in q;
      }
    }
  }
}
