/** The configuration graph the simplifiers read and the snapshot they build. */
module Values {
  import opened Seqs

  /** A JavaScript value as the simplifiers dispatch on it. Arrays and plain
      objects live in a `Heap` and are reached through `Ref`, so that shared
      and cyclic configurations can be written down; every other value is
      stored inline. Numbers are integers. */
  datatype Value =
    | Null
    | Undef
    | Bool(b: bool)
    | Int(n: int)
    | Str(s: string)
    | Regex(source: string)
    | Func(name: string)
    | Ref(id: nat)

  /** An array, or a plain object whose keys are in insertion order. */
  datatype Container = Arr(items: seq<Value>) | Obj(fields: seq<(string, Value)>)
  {
    function Size(): nat
    {
      if Arr? then |items| else |fields|
    }

    function Child(i: nat): Value
      requires i < Size()
    {
      if Arr? then items[i] else fields[i].1
    }
  }

  /** Containers by identity: two `Ref`s with the same id are the same object. */
  type Heap = map<nat, Container>

  predicate InHeap(h: Heap, v: Value)
  {
    v.Ref? ==> v.id in h
  }

  predicate ContainerIn(h: Heap, c: Container)
  {
    forall i: nat | i < c.Size() :: InHeap(h, c.Child(i))
  }

  /** A heap a JavaScript program can build: no dangling reference, and no
      object with a repeated key. */
  predicate Wf(h: Heap)
  {
    && (forall id | id in h :: ContainerIn(h, h[id]))
    && (forall id | id in h && h[id].Obj? :: DistinctKeys(h[id].fields))
  }

  /** JavaScript truthiness: `null`, `undefined`, `false`, `0` and `""` are
      falsy; RegExps, functions, arrays and objects are truthy. */
  predicate Truthy(v: Value)
  {
    match v
    case Null => false
    case Undef => false
    case Bool(b) => b
    case Int(n) => n != 0
    case Str(s) => s != ""
    case _ => true
  }

  predicate IsScalar(v: Value)
  {
    v.Null? || v.Undef? || v.Bool? || v.Int? || v.Str?
  }

  /** A simplified value: a finite tree. Labels are strings. */
  datatype Out =
    | ONull
    | OUndef
    | OBool(b: bool)
    | OInt(n: int)
    | OStr(s: string)
    | ORegex(source: string)
    | OArr(items: seq<Out>)
    | OObj(fields: seq<(string, Out)>)

  predicate OutTruthy(o: Out)
  {
    match o
    case ONull => false
    case OUndef => false
    case OBool(b) => b
    case OInt(n) => n != 0
    case OStr(s) => s != ""
    case _ => true
  }

  /** `v` in `h` is a configuration written like the snapshot `o`: the same
      scalars, and arrays and objects with the same length, keys and
      children. */
  predicate Denotes(h: Heap, v: Value, o: Out)
    decreases o
  {
    match o
    case ONull => v == Null
    case OUndef => v == Undef
    case OBool(b) => v == Bool(b)
    case OInt(n) => v == Int(n)
    case OStr(str) => v == Str(str)
    case ORegex(source) => v == Regex(source)
    case OArr(items) =>
      && v.Ref? && v.id in h && h[v.id].Arr? && |h[v.id].items| == |items|
      && forall i | 0 <= i < |items| :: Denotes(h, h[v.id].items[i], items[i])
    case OObj(fields) =>
      && v.Ref? && v.id in h && h[v.id].Obj? && |h[v.id].fields| == |fields|
      && forall i | 0 <= i < |fields| ::
           h[v.id].fields[i].0 == fields[i].0 && Denotes(h, h[v.id].fields[i].1, fields[i].1)
  }

  /** A scalar copied into the snapshot unchanged. */
  function Scalar(v: Value): (r: Out)
    requires IsScalar(v)
    ensures OutTruthy(r) == Truthy(v)
    ensures !r.OArr? && !r.OObj? && !r.ORegex?
  {
    match v
    case Null => ONull
    case Undef => OUndef
    case Bool(b) => OBool(b)
    case Int(n) => OInt(n)
    case Str(s) => OStr(s)
  }

  /** No branch of `o` holds more than `n` nested containers. */
  predicate HeightAtMost(o: Out, n: nat)
    decreases n
  {
    match o
    case OArr(items) => n > 0 && forall x | x in items :: HeightAtMost(x, n - 1)
    case OObj(fields) => n > 0 && forall f | f in fields :: HeightAtMost(f.1, n - 1)
    case _ => true
  }

  /** Pairs each key of `fields` with the corresponding simplified value. */
  function Pair(fields: seq<(string, Value)>, outs: seq<Out>): seq<(string, Out)>
    requires |fields| == |outs|
  {
    seq(|fields|, i requires 0 <= i < |fields| => (fields[i].0, outs[i]))
  }

  lemma PairKeys(fields: seq<(string, Value)>, outs: seq<Out>)
    requires |fields| == |outs|
    ensures Keys(Pair(fields, outs)) == Keys(fields)
  {
  }

  lemma PairMember(fields: seq<(string, Value)>, outs: seq<Out>, f: (string, Out))
    requires |fields| == |outs| && f in Pair(fields, outs)
    ensures f.1 in outs
  {
    var i :| 0 <= i < |fields| && Pair(fields, outs)[i] == f;
    assert outs[i] == f.1;
  }

  lemma PairAppend(fields: seq<(string, Value)>, outs: seq<Out>, i: nat, x: Out)
    requires i < |fields| && |outs| == i
    ensures Pair(fields[..i + 1], outs + [x]) == Pair(fields[..i], outs) + [(fields[i].0, x)]
  {
  }
}
