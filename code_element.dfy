// `CodeElement`, a node of the code-structure tree, and its `Builder`, which collects the
// children, ranges and properties of one element before the element is created.
module CodeStructure {
  import opened Wrappers
  import opened Ranges

  /**
   * An element of the code structure: its kind, names, children in order, named ranges and named
   * properties. Property values are of the type parameter `Value` (`object` in the source).
   */
  datatype CodeElement<Value> = CodeElement(kind: string, name: string, displayName: string,
                                            children: seq<CodeElement<Value>>,
                                            ranges: map<string, Range>,
                                            properties: map<string, Value>)

  /**
   * `ImmutableDictionary<K, V>.Builder.Add`: a new key is added; a key already present with an
   * equal value leaves the dictionary as it is; with another value it throws `ArgumentException`.
   */
  function DictionaryAdd<K, V(==)>(m: map<K, V>, key: K, value: V): (r: Result<map<K, V>>)
    ensures r.Ok? <==> key !in m || m[key] == value
    ensures r.Throws? ==> r.exception == ArgumentException
    ensures r.Ok? ==> key in r.value && r.value[key] == value
    ensures r.Ok? ==> r.value.Keys == m.Keys + {key}
    ensures r.Ok? ==> forall k :: k in m && k != key ==> r.value[k] == m[k]
  {
    if key in m && m[key] != value then Throws(ArgumentException)
    else Ok(m[key := value])
  }

  /** Adding the same entry a second time changes nothing. */
  lemma DictionaryAddIdempotent<K, V>(m: map<K, V>, key: K, value: V)
    requires DictionaryAdd(m, key, value).Ok?
    ensures DictionaryAdd(DictionaryAdd(m, key, value).value, key, value) == DictionaryAdd(m, key, value)
  {
    var r := DictionaryAdd(m, key, value).value;
    assert r[key := value] == r;
  }

  /** An entry for another key already there may be added only with the value it has. */
  lemma DictionaryAddRejectsConflict<K, V>(m: map<K, V>, key: K, first: V, second: V)
    requires key !in m && first != second
    ensures DictionaryAdd(m, key, first).Ok?
    ensures DictionaryAdd(DictionaryAdd(m, key, first).value, key, second) == Throws(ArgumentException)
  {
  }

  /** Entries for distinct keys may be added in either order. */
  lemma DictionaryAddsCommute<K, V>(m: map<K, V>, k1: K, v1: V, k2: K, v2: V)
    requires k1 != k2 && DictionaryAdd(m, k1, v1).Ok? && DictionaryAdd(m, k2, v2).Ok?
    ensures DictionaryAdd(DictionaryAdd(m, k1, v1).value, k2, v2).Ok?
    ensures DictionaryAdd(DictionaryAdd(m, k1, v1).value, k2, v2) == DictionaryAdd(DictionaryAdd(m, k2, v2).value, k1, v1)
  {
    var a := DictionaryAdd(DictionaryAdd(m, k1, v1).value, k2, v2).value;
    var b := DictionaryAdd(DictionaryAdd(m, k2, v2).value, k1, v1).value;
    assert a.Keys == b.Keys;
    assert forall k :: k in a ==> a[k] == b[k];
    assert a == b;
  }

  /** `CodeElement.Builder`: the element's kind and names, and the three collection builders. */
  class Builder<Value(==)> {
    const kind: string
    const name: string
    const displayName: string
    var children: seq<CodeElement<Value>>
    var ranges: map<string, Range>
    var properties: map<string, Value>

    constructor (kind: string, name: string, displayName: string)
      ensures this.kind == kind && this.name == name && this.displayName == displayName
      ensures children == [] && ranges == map[] && properties == map[]
    {
      this.kind, this.name, this.displayName := kind, name, displayName;
      children, ranges, properties := [], map[], map[];
    }

    /** `AddChild`: the element goes after the children added before it. */
    method AddChild(element: CodeElement<Value>)
      modifies this
      ensures children == old(children) + [element]
      ensures ranges == old(ranges) && properties == old(properties)
    {
      children := children + [element];
    }

    /** `AddRange`: `Add` on the ranges' builder, which is left as it was when `Add` throws. */
    method AddRange(rangeName: string, range: Range) returns (outcome: Outcome)
      modifies this
      ensures DictionaryAdd(old(ranges), rangeName, range).Throws? ==>
        outcome == Raised(ArgumentException) && ranges == old(ranges)
      ensures DictionaryAdd(old(ranges), rangeName, range).Ok? ==>
        outcome == Completed && ranges == DictionaryAdd(old(ranges), rangeName, range).value
      ensures children == old(children) && properties == old(properties)
    {
      var added := DictionaryAdd(ranges, rangeName, range);
      if added.Throws? {
        return Raised(added.exception);
      }
      ranges := added.value;
      return Completed;
    }

    /** `AddProperty`: `Add` on the properties' builder, likewise. */
    method AddProperty(propertyName: string, value: Value) returns (outcome: Outcome)
      modifies this
      ensures DictionaryAdd(old(properties), propertyName, value).Throws? ==>
        outcome == Raised(ArgumentException) && properties == old(properties)
      ensures DictionaryAdd(old(properties), propertyName, value).Ok? ==>
        outcome == Completed && properties == DictionaryAdd(old(properties), propertyName, value).value
      ensures children == old(children) && ranges == old(ranges)
    {
      var added := DictionaryAdd(properties, propertyName, value);
      if added.Throws? {
        return Raised(added.exception);
      }
      properties := added.value;
      return Completed;
    }

    /** `ToCodeElement`: an element holding the builder's names and the collections as they are now. */
    function ToCodeElement(): (r: CodeElement<Value>)
      reads this
      ensures r.kind == kind && r.name == name && r.displayName == displayName
      ensures r.children == children && r.ranges == ranges && r.properties == properties
    {
      CodeElement(kind, name, displayName, children, ranges, properties)
    }
  }

  /**
   * An element taken from a builder stays as it was when the builder is given more children,
   * ranges and properties; an element taken afterwards shows them.
   */
  method SnapshotsAreIndependent<Value(==)>(b: Builder<Value>, child: CodeElement<Value>, rangeName: string,
                                             range: Range, propertyName: string, value: Value)
    returns (before: CodeElement<Value>, after: CodeElement<Value>)
    modifies b
    ensures before == old(b.ToCodeElement())
    ensures after.children == before.children + [child]
    ensures DictionaryAdd(before.ranges, rangeName, range).Ok? ==> after.ranges == before.ranges[rangeName := range]
    ensures DictionaryAdd(before.ranges, rangeName, range).Throws? ==> after.ranges == before.ranges
    ensures DictionaryAdd(before.properties, propertyName, value).Ok? ==>
      after.properties == before.properties[propertyName := value]
    ensures DictionaryAdd(before.properties, propertyName, value).Throws? ==> after.properties == before.properties
  {
    before := b.ToCodeElement();
    b.AddChild(child);
    var _ := b.AddRange(rangeName, range);
    var _ := b.AddProperty(propertyName, value);
    after := b.ToCodeElement();
  }
}
