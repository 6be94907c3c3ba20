/** Layered configuration (src/loro/config.py:1154-1161, 1295-1329). */
module ConfigMerge {
  import opened Common

  /** A parsed TOML value; everything that is not a table is replaced whole. */
  datatype Value = Leaf(text: string) | Table(fields: map<string, Value>)

  type Layer = v: Value | v.Table? witness Table(map[])

  const EMPTY: Layer := Table(map[])

  /** `_merge`, key by key. */
  function Merge(base: Layer, over: Layer): Layer
    decreases over
  {
    Table(map k | k in base.fields.Keys + over.fields.Keys :: MergeAt(base, over, k))
  }

  function MergeAt(base: Layer, over: Layer, k: string): Value
    requires k in base.fields || k in over.fields
    decreases over, 0
  {
    if k !in over.fields then base.fields[k]
    else if k in base.fields && base.fields[k].Table? && over.fields[k].Table? then Merge(base.fields[k], over.fields[k])
    else over.fields[k]
  }

  lemma SameFields(a: Layer, b: Layer)
    requires forall k :: k in a.fields <==> k in b.fields
    requires forall k :: k in a.fields ==> a.fields[k] == b.fields[k]
    ensures a == b
  {
    assert a.fields == b.fields;
  }

  /** The loop that fills `merged`, one key of the override at a time. */
  method MergeInto(base: Layer, over: Layer) returns (merged: Layer)
    ensures merged == Merge(base, over)
    decreases over
  {
    merged := base;
    var todo := over.fields.Keys;
    while todo != {}
      invariant todo <= over.fields.Keys
      invariant forall k :: k in merged.fields <==> k in base.fields || (k in over.fields && k !in todo)
      invariant forall k :: k in merged.fields ==>
                  merged.fields[k] == if k in todo then base.fields[k] else MergeAt(base, over, k)
      decreases |todo|
    {
      var key :| key in todo;
      var value := MergeKey(base, over, key, if key in merged.fields then Some(merged.fields[key]) else None);
      merged := Table(merged.fields[key := value]);
      todo := todo - {key};
    }
    SameFields(merged, Merge(base, over));
  }

  method MergeKey(ghost base: Layer, over: Layer, key: string, current: Option<Value>) returns (value: Value)
    requires key in over.fields && current == if key in base.fields then Some(base.fields[key]) else None
    ensures value == MergeAt(base, over, key)
    decreases over, 0
  {
    value := over.fields[key];
    if value.Table? && current.Some? && current.value.Table? {
      value := MergeInto(current.value, value);
    }
  }

  // ---- Which value wins ----

  function Lookup(v: Value, path: seq<string>): Option<Value> {
    if path == [] then Some(v)
    else if v.Table? && path[0] in v.fields then Lookup(v.fields[path[0]], path[1..])
    else None
  }

  /** A path is followed key by key; nothing is found below a plain value or a key that is not there. */
  lemma LookupGoesDown(v: Value, k: string, path: seq<string>)
    ensures Lookup(v, []) == Some(v)
    ensures Lookup(v, [k] + path) == if v.Table? && k in v.fields then Lookup(v.fields[k], path) else None
  {
    assert ([k] + path)[1..] == path;
  }

  /** The layer says nothing about the path: following it comes to a table without the next key. */
  predicate Silent(v: Value, path: seq<string>) {
    path != [] && v.Table? && (path[0] !in v.fields || Silent(v.fields[path[0]], path[1..]))
  }

  /** A setting of the merged configuration is the override's, or the base's where the override is silent. */
  lemma {:induction false} LeafWins(base: Layer, over: Layer, path: seq<string>, text: string)
    ensures Lookup(Merge(base, over), path) == Some(Leaf(text)) <==>
              || Lookup(over, path) == Some(Leaf(text))
              || (Silent(over, path) && Lookup(base, path) == Some(Leaf(text)))
  {
    if path != [] {
      var k := path[0];
      if k in over.fields && k in base.fields && base.fields[k].Table? && over.fields[k].Table? {
        LeafWins(base.fields[k], over.fields[k], path[1..], text);
      } else if k in over.fields {
        if Silent(over.fields[k], path[1..]) {
          SilentMeansNoValue(over.fields[k], path[1..]);
        }
      }
    }
  }

  lemma {:induction false} SilentMeansNoValue(v: Value, path: seq<string>)
    requires Silent(v, path)
    ensures Lookup(v, path).None? && path != []
  {
    if v.Table? && path[0] in v.fields {
      SilentMeansNoValue(v.fields[path[0]], path[1..]);
    }
  }

  // ---- Algebra ----

  function At(l: Layer, k: string): Option<Value> {
    if k in l.fields then Some(l.fields[k]) else None
  }

  function Combine(x: Option<Value>, y: Option<Value>): Option<Value> {
    if y.None? then x
    else if x.Some? && x.value.Table? && y.value.Table? then Some(Merge(x.value, y.value))
    else y
  }

  lemma AtMerge(a: Layer, b: Layer, k: string)
    ensures At(Merge(a, b), k) == Combine(At(a, k), At(b, k))
  {
  }

  lemma SameAt(a: Layer, b: Layer)
    ensures a == b <==> forall k :: At(a, k) == At(b, k)
  {
    if forall k :: At(a, k) == At(b, k) {
      assert forall k :: k in a.fields <==> At(a, k).Some?;
      assert forall k :: k in b.fields <==> At(b, k).Some?;
      forall k | k in a.fields ensures a.fields[k] == b.fields[k] {
        assert At(a, k) == At(b, k);
      }
      SameFields(a, b);
    }
  }

  lemma {:induction false} MergeIdempotent(a: Layer)
    ensures Merge(a, a) == a
  {
    forall k | k in a.fields ensures MergeAt(a, a, k) == a.fields[k] {
      if a.fields[k].Table? {
        MergeIdempotent(a.fields[k]);
      }
    }
    SameFields(Merge(a, a), a);
  }

  lemma MergeEmpty(a: Layer)
    ensures Merge(EMPTY, a) == a && Merge(a, EMPTY) == a
  {
    forall k ensures At(Merge(EMPTY, a), k) == At(a, k) == At(Merge(a, EMPTY), k) {
      AtMerge(EMPTY, a, k);
      AtMerge(a, EMPTY, k);
    }
    SameAt(Merge(EMPTY, a), a);
    SameAt(Merge(a, EMPTY), a);
  }

  /** Every key of a, at every depth where both are tables, is also a key of c. */
  predicate CoveredBy(a: Layer, c: Layer)
    decreases c
  {
    forall k :: k in a.fields ==>
      k in c.fields && (a.fields[k].Table? && c.fields[k].Table? ==> CoveredBy(a.fields[k], c.fields[k]))
  }

  lemma {:induction false} CoveredExactlyWhenAbsorbed(a: Layer, c: Layer)
    ensures CoveredBy(a, c) <==> Merge(a, c) == c
    decreases c
  {
    forall k | k in a.fields && k in c.fields && a.fields[k].Table? && c.fields[k].Table?
      ensures CoveredBy(a.fields[k], c.fields[k]) <==> MergeAt(a, c, k) == c.fields[k]
    {
      CoveredExactlyWhenAbsorbed(a.fields[k], c.fields[k]);
    }
    if CoveredBy(a, c) {
      forall k ensures At(Merge(a, c), k) == At(c, k) {
        AtMerge(a, c, k);
      }
      SameAt(Merge(a, c), c);
    }
    if Merge(a, c) == c {
      forall k | k in a.fields ensures k in c.fields && MergeAt(a, c, k) == c.fields[k] {
        assert k in Merge(a, c).fields;
      }
    }
  }

  /**
   * Where the middle layer replaces a table by a plain value and the last makes it a table again, the first
   * layer's keys must all be set by the last.
   */
  predicate Regroups(a: Layer, b: Layer, c: Layer)
    decreases c
  {
    forall k :: k in a.fields && k in b.fields && k in c.fields && a.fields[k].Table? && c.fields[k].Table? ==>
      if b.fields[k].Table? then Regroups(a.fields[k], b.fields[k], c.fields[k])
      else CoveredBy(a.fields[k], c.fields[k])
  }

  predicate RegroupsAt(x: Option<Value>, y: Option<Value>, z: Option<Value>)
    decreases z
  {
    x.Some? && y.Some? && z.Some? && x.value.Table? && z.value.Table? ==>
      if y.value.Table? then Regroups(x.value, y.value, z.value) else CoveredBy(x.value, z.value)
  }

  lemma AssociativeAt(x: Option<Value>, y: Option<Value>, z: Option<Value>)
    ensures Combine(Combine(x, y), z) == Combine(x, Combine(y, z)) <==> RegroupsAt(x, y, z)
    decreases if z.Some? then z.value else EMPTY, 1
  {
    if x.Some? && y.Some? && z.Some? && x.value.Table? && z.value.Table? {
      if y.value.Table? {
        AssociativeExactlyWhen(x.value, y.value, z.value);
      } else {
        CoveredExactlyWhenAbsorbed(x.value, z.value);
      }
    }
  }

  /** The order of grouping is immaterial exactly when no such table loses keys. */
  lemma {:induction false} AssociativeExactlyWhen(a: Layer, b: Layer, c: Layer)
    ensures Merge(Merge(a, b), c) == Merge(a, Merge(b, c)) <==> Regroups(a, b, c)
    decreases c, 0
  {
    var left, right := Merge(Merge(a, b), c), Merge(a, Merge(b, c));
    forall k ensures At(left, k) == At(right, k) <==> RegroupsAt(At(a, k), At(b, k), At(c, k)) {
      AtMerge(a, b, k);
      AtMerge(b, c, k);
      AtMerge(Merge(a, b), c, k);
      AtMerge(a, Merge(b, c), k);
      if k in c.fields {
        AssociativeAt(At(a, k), At(b, k), Some(c.fields[k]));
      }
    }
    SameAt(left, right);
    RegroupsByKey(a, b, c);
  }

  lemma RegroupsByKey(a: Layer, b: Layer, c: Layer)
    ensures Regroups(a, b, c) <==> forall k :: RegroupsAt(At(a, k), At(b, k), At(c, k))
  {
    if forall k :: RegroupsAt(At(a, k), At(b, k), At(c, k)) {
      forall k | k in a.fields && k in b.fields && k in c.fields && a.fields[k].Table? && c.fields[k].Table?
        ensures if b.fields[k].Table? then Regroups(a.fields[k], b.fields[k], c.fields[k])
                else CoveredBy(a.fields[k], c.fields[k])
      {
        assert RegroupsAt(At(a, k), At(b, k), At(c, k));
      }
    }
  }

  // ---- Layering ----

  /** The layers say the same about which of their common paths are tables. */
  predicate Agree(a: Layer, b: Layer)
    decreases b
  {
    forall k :: k in a.fields && k in b.fields ==>
      (a.fields[k].Table? <==> b.fields[k].Table?) && (a.fields[k].Table? ==> Agree(a.fields[k], b.fields[k]))
  }

  lemma {:induction false} AgreeRegroups(a: Layer, b: Layer, c: Layer)
    requires Agree(a, b) && Agree(b, c) && Agree(a, c)
    ensures Regroups(a, b, c)
    decreases c
  {
    forall k | k in a.fields && k in b.fields && k in c.fields && a.fields[k].Table?
      ensures Regroups(a.fields[k], b.fields[k], c.fields[k])
    {
      AgreeRegroups(a.fields[k], b.fields[k], c.fields[k]);
    }
  }

  lemma {:induction false} AgreeMerged(a: Layer, b: Layer, c: Layer)
    requires Agree(a, b) && Agree(a, c) && Agree(b, c)
    ensures Agree(a, Merge(b, c)) && Agree(Merge(a, b), c)
    decreases c
  {
    forall k | k in b.fields && k in c.fields && b.fields[k].Table? && k in a.fields
      ensures Agree(a.fields[k], Merge(b.fields[k], c.fields[k]))
    {
      AgreeMerged(a.fields[k], b.fields[k], c.fields[k]);
    }
    forall k | k in a.fields && k in b.fields && a.fields[k].Table? && k in c.fields
      ensures Agree(Merge(a.fields[k], b.fields[k]), c.fields[k])
    {
      AgreeMerged(a.fields[k], b.fields[k], c.fields[k]);
    }
  }

  function MergeAll(base: Layer, layers: seq<Layer>): Layer {
    if layers == [] then base else Merge(MergeAll(base, layers[..|layers| - 1]), layers[|layers| - 1])
  }

  method MergeLayers(layers: seq<Layer>) returns (data: Layer)
    ensures data == MergeAll(EMPTY, layers)
  {
    data := EMPTY;
    for i := 0 to |layers|
      invariant data == MergeAll(EMPTY, layers[..i])
    {
      assert layers[..i + 1][..i] == layers[..i];
      data := MergeInto(data, layers[i]);
    }
    assert layers[..|layers|] == layers;
  }

  /** Layer i sets the path to this text, and every later layer is silent about it. */
  predicate Decides(layers: seq<Layer>, path: seq<string>, text: string, i: nat) {
    && i < |layers| && Lookup(layers[i], path) == Some(Leaf(text))
    && forall j :: i < j < |layers| ==> Silent(layers[j], path)
  }

  /** Over any number of layers a setting has the value given by the last layer that is not silent about it. */
  lemma {:induction false} LastToSpeakWins(layers: seq<Layer>, path: seq<string>, text: string)
    ensures Lookup(MergeAll(EMPTY, layers), path) == Some(Leaf(text)) <==>
              exists i: nat :: Decides(layers, path, text, i)
  {
    if layers == [] {
      assert Lookup(EMPTY, path) != Some(Leaf(text));
    } else {
      var n := |layers| - 1;
      var front := layers[..n];
      LastToSpeakWins(front, path, text);
      LeafWins(MergeAll(EMPTY, front), layers[n], path, text);
      if Lookup(layers[n], path) == Some(Leaf(text)) {
        assert Decides(layers, path, text, n);
      }
      forall i: nat | i < n ensures Decides(layers, path, text, i) <==> Decides(front, path, text, i) && Silent(layers[n], path) {
        assert forall j :: 0 <= j < n ==> front[j] == layers[j];
      }
    }
  }

  predicate AgreeAfter(a: Layer, layers: seq<Layer>) {
    forall l :: l in layers ==> Agree(a, l)
  }

  predicate AgreeBefore(layers: seq<Layer>, last: Layer) {
    forall l :: l in layers ==> Agree(l, last)
  }

  /** Every layer agrees with every later one. */
  predicate AllAgree(layers: seq<Layer>) {
    layers == []
    || (AllAgree(layers[..|layers| - 1]) && AgreeBefore(layers[..|layers| - 1], layers[|layers| - 1]))
  }

  lemma {:induction false} MergedAgrees(base: Layer, layers: seq<Layer>, last: Layer)
    requires AllAgree(layers) && AgreeAfter(base, layers) && AgreeBefore(layers, last) && Agree(base, last)
    ensures Agree(MergeAll(base, layers), last)
  {
    if layers != [] {
      var front, newest := layers[..|layers| - 1], layers[|layers| - 1];
      assert newest in layers;
      MergedAgrees(base, front, last);
      MergedAgrees(base, front, newest);
      AgreeMerged(MergeAll(base, front), newest, last);
    }
  }

  lemma {:induction false} AgreesWithMerged(data: Layer, layers: seq<Layer>)
    requires AllAgree(layers) && AgreeAfter(data, layers)
    ensures Agree(data, MergeAll(EMPTY, layers))
  {
    if layers != [] {
      var front, last := layers[..|layers| - 1], layers[|layers| - 1];
      assert last in layers;
      AgreesWithMerged(data, front);
      MergedAgrees(EMPTY, front, last);
      AgreeMerged(data, MergeAll(EMPTY, front), last);
    }
  }

  /** When all layers agree on which paths are tables, merging the managed sources first changes nothing. */
  lemma {:induction false} ManagedFirstIsSame(data: Layer, managed: seq<Layer>)
    requires AllAgree(managed) && AgreeAfter(data, managed)
    ensures Merge(data, MergeAll(EMPTY, managed)) == MergeAll(data, managed)
  {
    if managed == [] {
      MergeEmpty(data);
    } else {
      var front, last := managed[..|managed| - 1], managed[|managed| - 1];
      assert last in managed;
      ManagedFirstIsSame(data, front);
      MergedAgrees(EMPTY, front, last);
      AgreesWithMerged(data, front);
      AgreeingLayersRegroup(data, MergeAll(EMPTY, front), last);
    }
  }

  lemma AgreeingLayersRegroup(a: Layer, b: Layer, c: Layer)
    requires Agree(a, b) && Agree(b, c) && Agree(a, c)
    ensures Merge(Merge(a, b), c) == Merge(a, Merge(b, c))
  {
    AgreeRegroups(a, b, c);
    AssociativeExactlyWhen(a, b, c);
  }

  lemma {:induction false} AllAgreeSplits(user: seq<Layer>, managed: seq<Layer>)
    requires AllAgree(user + managed)
    ensures AllAgree(user) && AllAgree(managed) && AgreeAfter(MergeAll(EMPTY, user), managed)
  {
    if managed == [] {
      assert user + managed == user;
    } else {
      var front, last := managed[..|managed| - 1], managed[|managed| - 1];
      assert (user + managed)[..|user + managed| - 1] == user + front;
      AllAgreeSplits(user, front);
      AgreeBeforeSplits(user, front, last);
      MergedAgrees(EMPTY, user, last);
    }
  }

  lemma AgreeBeforeSplits(a: seq<Layer>, b: seq<Layer>, last: Layer)
    requires AgreeBefore(a + b, last)
    ensures AgreeBefore(a, last) && AgreeBefore(b, last)
  {
    assert forall l :: l in a || l in b ==> l in a + b;
  }

  lemma {:induction false} MergeAllAppend(base: Layer, a: seq<Layer>, b: seq<Layer>)
    ensures MergeAll(base, a + b) == MergeAll(MergeAll(base, a), b)
  {
    if b == [] {
      assert a + b == a;
    } else {
      assert (a + b)[..|a + b| - 1] == a + b[..|b| - 1];
      MergeAllAppend(base, a, b[..|b| - 1]);
    }
  }

  /**
   * `load_config`, as far as layering goes: user layers in order, managed sources in order, managed over user.
   * A setting of the last managed source holds whatever the other layers say.
   */
  method LoadConfig(user: seq<Layer>, managed: seq<Layer>) returns (data: Layer)
    ensures data == Merge(MergeAll(EMPTY, user), MergeAll(EMPTY, managed))
    ensures managed != [] ==> forall path, text :: Lookup(managed[|managed| - 1], path) == Some(Leaf(text)) ==>
                                Lookup(data, path) == Some(Leaf(text))
    ensures AllAgree(user + managed) ==> data == MergeAll(EMPTY, user + managed)
  {
    var base := MergeLayers(user);
    var policy := MergeLayers(managed);
    data := MergeInto(base, policy);
    if managed != [] {
      forall path, text | Lookup(managed[|managed| - 1], path) == Some(Leaf(text))
        ensures Lookup(data, path) == Some(Leaf(text))
      {
        LeafWins(MergeAll(EMPTY, managed[..|managed| - 1]), managed[|managed| - 1], path, text);
        LeafWins(base, policy, path, text);
      }
    }
    if AllAgree(user + managed) {
      AllAgreeSplits(user, managed);
      MergeAllAppend(EMPTY, user, managed);
      ManagedFirstIsSame(base, managed);
    }
  }

  /** Three layers for which grouping matters: a table, then a plain value, then a table again. */
  lemma GroupingCanMatter()
    ensures exists a: Layer, b: Layer, c: Layer :: Merge(Merge(a, b), c) != Merge(a, Merge(b, c))
  {
    var a: Layer := Table(map["k" := Table(map["x" := Leaf("1")])]);
    var b: Layer := Table(map["k" := Leaf("off")]);
    var c: Layer := Table(map["k" := Table(map[])]);
    assert "x" in a.fields["k"].fields;
    assert !Regroups(a, b, c);
    AssociativeExactlyWhen(a, b, c);
  }
}
