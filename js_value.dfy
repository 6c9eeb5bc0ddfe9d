/**
 * The slice of JavaScript's data model that the duration display configuration
 * touches: JSON-like values, plain records, optional member access `o?.k`,
 * nullish coalescing `x ?? d` and object spread `{...x}`.
 */
module JsValue {
  import opened Wrappers

  /** A JSON-like value as stored in display options or held in a form. */
  datatype Value = Null | Bool(b: bool) | Str(s: string) | Obj(fields: map<string, Value>)

  /** A plain object: property name to property value. */
  type Record = map<string, Value>

  /** `o?.key` where `o` may be null (`None`): `None` is `undefined`, `Some(Null)` a stored `null`. */
  function OptionalMember(o: Option<Record>, key: string): (r: Option<Value>)
    ensures o.None? ==> r.None?
    ensures r.Some? <==> o.Some? && key in o.value
    ensures r.Some? ==> r.value == o.value[key]
  {
    if o.Some? && key in o.value then Some(o.value[key]) else None
  }

  /** `v.key` on a record that is known to be an object. */
  function Member(v: Record, key: string): (r: Option<Value>)
    ensures r.Some? <==> key in v
    ensures r.Some? ==> r.value == v[key]
    ensures r == OptionalMember(Some(v), key)
  {
    if key in v then Some(v[key]) else None
  }

  /** `x` is neither `undefined` nor `null`. */
  predicate IsPresent(x: Option<Value>)
  {
    x.Some? && x.value != Null
  }

  /**
   * Nullish coalescing `x ?? d`: the fallback replaces only `undefined` and `null`;
   * every other value, including `false` and the empty string, is kept.
   */
  function Coalesce(x: Option<Value>, d: Value): (r: Value)
    ensures IsPresent(x) ==> r == x.value
    ensures !IsPresent(x) ==> r == d
    ensures r != Null || d == Null
  {
    match x
    case None => d
    case Some(Null) => d
    case Some(v) => v
  }

  /** The decimal digit character for `d`. */
  function Digit(d: nat): (c: char)
    requires d < 10
    ensures '0' <= c <= '9'
  {
    (48 + d) as char
  }

  /**
   * The property key under which JavaScript exposes index `n` of a string:
   * its canonical decimal numeral.
   */
  function IndexKey(n: nat): (r: string)
    ensures |r| >= 1
    ensures forall i :: 0 <= i < |r| ==> '0' <= r[i] <= '9'
    ensures n < 10 <==> |r| == 1
    ensures r[|r| - 1] == Digit(n % 10)
  {
    if n < 10 then [Digit(n)] else IndexKey(n / 10) + [Digit(n % 10)]
  }

  /** Distinct indices have distinct keys. */
  lemma {:induction false} IndexKeyInjective(a: nat, b: nat)
    requires IndexKey(a) == IndexKey(b)
    ensures a == b
  {
    var ka, kb := IndexKey(a), IndexKey(b);
    assert Digit(a % 10) == ka[|ka| - 1] == Digit(b % 10);
    if a >= 10 {
      assert ka[..|ka| - 1] == IndexKey(a / 10);
      assert kb[..|kb| - 1] == IndexKey(b / 10);
      IndexKeyInjective(a / 10, b / 10);
    }
  }

  lemma IndexKeysDistinct()
    ensures forall a: nat, b: nat :: IndexKey(a) == IndexKey(b) ==> a == b
  {
    forall a: nat, b: nat | IndexKey(a) == IndexKey(b) ensures a == b {
      IndexKeyInjective(a, b);
    }
  }

  /** The keys of the indices below `n`. */
  function IndexKeys(n: nat): set<string>
  {
    set i | 0 <= i < n :: IndexKey(i)
  }

  /** Distinct indices give distinct keys, so the indices below `n` give `n` keys. */
  lemma {:induction false} IndexKeysCount(n: nat)
    ensures |IndexKeys(n)| == n
  {
    if n > 0 {
      IndexKeysCount(n - 1);
      assert IndexKeys(n) == IndexKeys(n - 1) + {IndexKey(n - 1)};
      if IndexKey(n - 1) in IndexKeys(n - 1) {
        var i :| 0 <= i < n - 1 && IndexKey(i) == IndexKey(n - 1);
        IndexKeyInjective(i, n - 1);
        assert false;
      }
    }
  }

  /** The own enumerable properties of string `s`: one per index, each a one-character string. */
  function StringProperties(s: string): (r: Record)
    ensures forall i :: 0 <= i < |s| ==> IndexKey(i) in r && r[IndexKey(i)] == Str([s[i]])
    ensures r.Keys == IndexKeys(|s|)
  {
    IndexKeysDistinct();
    var r := map i | 0 <= i < |s| :: IndexKey(i) := Str([s[i]]);
    r
  }

  /** Spreading a string keeps every character: one property per index. */
  lemma StringPropertiesCount(s: string)
    ensures |StringProperties(s)| == |s|
  {
    IndexKeysCount(|s|);
  }

  /**
   * Object spread `{...x}`: a plain object contributes its own properties, a string
   * its indexed characters; `undefined`, `null` and booleans contribute nothing.
   */
  function Spread(x: Option<Value>): (r: Record)
    ensures x.Some? && x.value.Obj? ==> r == x.value.fields
    ensures x.Some? && x.value.Str? ==> |r| == |x.value.s|
    ensures x.Some? && x.value.Str? ==> forall i :: 0 <= i < |x.value.s| ==>
              IndexKey(i) in r && r[IndexKey(i)] == Str([x.value.s[i]])
    ensures x.Some? && x.value.Str? ==> r.Keys == IndexKeys(|x.value.s|)
    ensures !(x.Some? && (x.value.Obj? || x.value.Str?)) ==> r == map[]
  {
    match x
    case Some(Obj(fields)) => fields
    case Some(Str(s)) => StringPropertiesCount(s); StringProperties(s)
    case _ => map[]
  }
}
