/**
 * The reflection surface the paging code relies on: the public instance
 * properties of an entity type, each with a name and a getter, and the
 * ordering the store applies to the values of one column.
 */
module Fields {
  import opened Wrappers
  import opened Casing

  /** A column value: numbers compare numerically, text compares ordinally. */
  datatype Value = Num(n: int) | Text(s: string)

  /** A public instance property of an entity type. */
  datatype Property<!T> = Property(name: string, get: T -> Value)

  /**
   * `typeof(T).GetProperty(name, BindingFlags.IgnoreCase | Public | Instance)`:
   * the first property whose name matches `name` ignoring case, if any.
   */
  function FindProperty<T>(properties: seq<Property<T>>, name: string): (r: Option<nat>)
    ensures r.Some? ==> r.value < |properties| && EqualsIgnoreCase(properties[r.value].name, name)
    ensures r.Some? ==> forall j :: 0 <= j < r.value ==> !EqualsIgnoreCase(properties[j].name, name)
    ensures r.None? <==> forall i :: 0 <= i < |properties| ==> !EqualsIgnoreCase(properties[i].name, name)
    decreases |properties|
  {
    if properties == [] then None
    else if EqualsIgnoreCase(properties[0].name, name) then Some(0)
    else match FindProperty(properties[1..], name)
      case None => None
      case Some(i) => Some(i + 1)
  }

  /** Ordinal (character code) lexicographic order on text. */
  predicate TextLeq(a: string, b: string)
    decreases |a|
  {
    a == [] || (b != [] && (a[0] < b[0] || (a[0] == b[0] && TextLeq(a[1..], b[1..]))))
  }

  /** The store's order on column values; a column never mixes numbers and text. */
  predicate ValueLeq(a: Value, b: Value) {
    match a
    case Num(x) => b.Text? || x <= b.n
    case Text(x) => b.Text? && TextLeq(x, b.s)
  }

  lemma {:induction false} TextLeqTotal(a: string, b: string)
    ensures TextLeq(a, b) || TextLeq(b, a)
    decreases |a|
  {
    if a != [] && b != [] && a[0] == b[0] {
      TextLeqTotal(a[1..], b[1..]);
    }
  }

  lemma {:induction false} TextLeqTransitive(a: string, b: string, c: string)
    requires TextLeq(a, b) && TextLeq(b, c)
    ensures TextLeq(a, c)
    decreases |a|
  {
    if a != [] && a[0] == b[0] && b[0] == c[0] {
      TextLeqTransitive(a[1..], b[1..], c[1..]);
    }
  }

  lemma {:induction false} TextLeqAntisymmetric(a: string, b: string)
    requires TextLeq(a, b) && TextLeq(b, a)
    ensures a == b
    decreases |a|
  {
    if a != [] {
      TextLeqAntisymmetric(a[1..], b[1..]);
      assert a == [a[0]] + a[1..] && b == [b[0]] + b[1..];
    }
  }

  /** The column order is a total order: total, transitive and antisymmetric. */
  lemma ValueLeqTotalOrder(a: Value, b: Value, c: Value)
    ensures ValueLeq(a, b) || ValueLeq(b, a)
    ensures ValueLeq(a, b) && ValueLeq(b, c) ==> ValueLeq(a, c)
    ensures ValueLeq(a, b) && ValueLeq(b, a) ==> a == b
  {
    if a.Text? && b.Text? {
      TextLeqTotal(a.s, b.s);
      if TextLeq(a.s, b.s) && TextLeq(b.s, a.s) {
        TextLeqAntisymmetric(a.s, b.s);
      }
    }
    if a.Text? && b.Text? && c.Text? && TextLeq(a.s, b.s) && TextLeq(b.s, c.s) {
      TextLeqTransitive(a.s, b.s, c.s);
    }
  }
}
