/**
 * The declarative form schema of an abstract type's display configuration:
 * named variables and a layout tree that a generic renderer walks.
 */
module FormSchema {
  import opened JsValue

  /**
   * How a variable is edited. `Custom` hands the whole value to a named widget
   * and carries only the value the form starts from.
   */
  datatype VariableSpec = Custom(default: Value)

  datatype Orientation = Vertical | Horizontal

  /**
   * A container lays its elements out in one direction, in order; a static
   * element binds one variable to the widget `componentId`.
   */
  datatype Layout =
    | Container(orientation: Orientation, elements: seq<Layout>)
    | Static(variable: string, componentId: string)

  datatype Form = Form(variables: map<string, VariableSpec>, layout: Layout)

  /** The static elements of `l`, in render order. */
  function Leaves(l: Layout): (r: seq<Layout>)
    ensures forall i :: 0 <= i < |r| ==> r[i].Static?
    ensures l.Static? ==> r == [l]
    decreases l
  {
    match l
    case Static(_, _) => [l]
    case Container(_, elements) => LeavesOf(elements)
  }

  /** The static elements of `es`, in render order. */
  function LeavesOf(es: seq<Layout>): (r: seq<Layout>)
    ensures forall i :: 0 <= i < |r| ==> r[i].Static?
    decreases es
  {
    if es == [] then [] else Leaves(es[0]) + LeavesOf(es[1..])
  }

  /** `x` is `l` itself or an element, at any depth, of one of its containers. */
  predicate Occurs(x: Layout, l: Layout)
    decreases l
  {
    x == l || (l.Container? && exists i :: 0 <= i < |l.elements| && Occurs(x, l.elements[i]))
  }

  /** A static element is a leaf of `l` exactly when it occurs in `l`. */
  lemma {:induction false} LeavesComplete(x: Layout, l: Layout)
    requires x.Static?
    ensures x in Leaves(l) <==> Occurs(x, l)
    decreases l
  {
    match l
    case Static(_, _) =>
    case Container(_, elements) =>
      LeavesOfComplete(x, elements);
  }

  /** A static element is a leaf of `es` exactly when it occurs in one of them. */
  lemma {:induction false} LeavesOfComplete(x: Layout, es: seq<Layout>)
    requires x.Static?
    ensures x in LeavesOf(es) <==> exists i :: 0 <= i < |es| && Occurs(x, es[i])
    decreases es
  {
    if es != [] {
      LeavesComplete(x, es[0]);
      LeavesOfComplete(x, es[1..]);
      if exists i :: 0 <= i < |es| && Occurs(x, es[i]) {
        var i :| 0 <= i < |es| && Occurs(x, es[i]);
        if i > 0 { assert es[1..][i - 1] == es[i]; }
      }
      if exists i :: 0 <= i < |es| - 1 && Occurs(x, es[1..][i]) {
        var i :| 0 <= i < |es| - 1 && Occurs(x, es[1..][i]);
        assert es[i + 1] == es[1..][i];
      }
    }
  }

  /** Render order: the leaves of earlier elements come before those of later ones. */
  lemma {:induction false} LeavesOfAppend(a: seq<Layout>, b: seq<Layout>)
    ensures LeavesOf(a + b) == LeavesOf(a) + LeavesOf(b)
    decreases a
  {
    if a == [] {
      assert a + b == b;
    } else {
      assert (a + b)[0] == a[0];
      assert (a + b)[1..] == a[1..] + b;
      LeavesOfAppend(a[1..], b);
    }
  }

  /** Every static element of the layout references a declared variable. */
  predicate WellFormed(f: Form)
  {
    var leaves := Leaves(f.layout);
    forall i :: 0 <= i < |leaves| ==> leaves[i].variable in f.variables
  }

  /** A form is well formed exactly when every static element occurring in its layout names a declared variable. */
  lemma WellFormedMeaning(f: Form)
    ensures WellFormed(f) <==> forall x: Layout :: x.Static? && Occurs(x, f.layout) ==> x.variable in f.variables
  {
    forall x: Layout | x.Static? {
      LeavesComplete(x, f.layout);
    }
  }
}
