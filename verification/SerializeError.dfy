/**
 Flattening an error into a JSON-safe tree: the walk over an object graph, possibly cyclic and
 shared, that cuts every reference back to an object on the current path.
 */
module SerializeError {
  import opened Outcomes

  // `Primitive` is a string, number, boolean or symbol.
  datatype Value = Undefined | Null | Primitive(text: string) | BigInt(digits: string) | Function | Ref(id: nat)

  datatype Kind = Plain | Buffer | Stream

  datatype Entry = Entry(key: string, value: Value)

  // `own` holds the enumerable own properties in order, `hidden` the other properties that can be
  // read; `toJson` names what the object's own toJSON method returns.
  datatype Obj = Obj(kind: Kind, isArray: bool, own: seq<Entry>, hidden: map<string, Value>, toJson: Option<nat>)

  type Heap = map<nat, Obj>

  datatype Field = Field(key: string, out: Out)

  datatype Out =
    | Kept(value: Value)
    | BufferNote
    | StreamNote
    | BigIntText(digits: string)
    | Circular
    | FromToJson(result: nat)
    | Record(isArray: bool, fields: seq<Field>)

  const ERROR_PROPERTIES := ["name", "message", "stack", "code", "cause", "errors"]

  // ---------- Objects ----------

  function OwnValue(own: seq<Entry>, key: string): Option<Value> {
    if own == [] then None
    else if own[|own| - 1].key == key then Some(own[|own| - 1].value)
    else OwnValue(own[..|own| - 1], key)
  }

  function Read(o: Obj, key: string): Value {
    match OwnValue(o.own, key)
    case Some(v) => v
    case None => if key in o.hidden then o.hidden[key] else Undefined
  }

  predicate DistinctKeys(own: seq<Entry>) {
    forall i, j :: 0 <= i < j < |own| ==> own[i].key != own[j].key
  }

  predicate InHeap(heap: Heap, v: Value) {
    v.Ref? ==> v.id in heap
  }

  // References lead to objects, and an object's own keys are distinct.
  predicate Closed(heap: Heap) {
    forall id :: id in heap ==>
      && DistinctKeys(heap[id].own)
      && (forall e :: e in heap[id].own ==> InHeap(heap, e.value))
      && (forall k :: k in heap[id].hidden ==> InHeap(heap, heap[id].hidden[k]))
  }

  lemma ReadIsInHeap(heap: Heap, id: nat, key: string)
    requires Closed(heap) && id in heap
    ensures InHeap(heap, Read(heap[id], key))
    ensures OwnValue(heap[id].own, key).Some? ==> InHeap(heap, OwnValue(heap[id].own, key).value)
  {
    OwnValueIsThere(heap[id].own, key);
  }

  lemma {:induction false} OwnValueIsThere(own: seq<Entry>, key: string)
    ensures OwnValue(own, key).Some? ==> Entry(key, OwnValue(own, key).value) in own
  {
    if own != [] && own[|own| - 1].key != key {
      OwnValueIsThere(own[..|own| - 1], key);
    }
  }

  // ---------- The walk ----------

  // Assigning a property keeps its place, or adds it at the end.
  function Put(fields: seq<Field>, key: string, out: Out): seq<Field> {
    if fields == [] then [Field(key, out)]
    else if fields[0].key == key then [Field(key, out)] + fields[1..]
    else [fields[0]] + Put(fields[1..], key, out)
  }

  function PutIf(fields: seq<Field>, key: string, out: Option<Out>): seq<Field> {
    if out.Some? then Put(fields, key, out.value) else fields
  }

  function Destroy(heap: Heap, id: nat, seen: set<nat>): Out
    requires Closed(heap) && id in heap && id !in seen
    decreases heap.Keys - seen, 0
  {
    var o := heap[id];
    if o.toJson.Some? then FromToJson(o.toJson.value)
    else
      Record(o.isArray, ErrorFields(heap, id, |ERROR_PROPERTIES|, seen + {id}, OwnFields(heap, o.own, seen + {id})))
  }

  // The object at a reference: cut if it is on the path.
  function Visit(heap: Heap, id: nat, seen: set<nat>): Out
    requires Closed(heap) && id in heap
    decreases heap.Keys - seen, 1
  {
    if id in seen then Circular else Destroy(heap, id, seen)
  }

  // The value of an own enumerable property; functions are dropped.
  function FirstPass(heap: Heap, v: Value, seen: set<nat>): Option<Out>
    requires Closed(heap) && InHeap(heap, v)
    decreases heap.Keys - seen, 2
  {
    match v
    case Ref(r) =>
      if heap[r].kind == Buffer then Some(BufferNote)
      else if heap[r].kind == Stream then Some(StreamNote)
      else Some(Visit(heap, r, seen))
    case Function => None
    case BigInt(digits) => Some(BigIntText(digits))
    case _ => Some(Kept(v))
  }

  // The value of one of the error properties, whatever the first pass made of it.
  function SecondPass(heap: Heap, v: Value, seen: set<nat>): Option<Out>
    requires Closed(heap) && InHeap(heap, v)
    decreases heap.Keys - seen, 2
  {
    match v
    case Undefined => None
    case Null => None
    case Ref(r) => Some(Visit(heap, r, seen))
    case _ => Some(Kept(v))
  }

  function OwnFields(heap: Heap, own: seq<Entry>, seen: set<nat>): seq<Field>
    requires Closed(heap) && forall e :: e in own ==> InHeap(heap, e.value)
    decreases heap.Keys - seen, 3 + |own|
  {
    if own == [] then []
    else
      var last := own[|own| - 1];
      PutIf(OwnFields(heap, own[..|own| - 1], seen), last.key, FirstPass(heap, last.value, seen))
  }

  function ErrorFields(heap: Heap, id: nat, n: nat, seen: set<nat>, fields: seq<Field>): seq<Field>
    requires Closed(heap) && id in heap && n <= |ERROR_PROPERTIES|
    decreases heap.Keys - seen, 3 + n
  {
    if n == 0 then fields
    else
      var key := ERROR_PROPERTIES[n - 1];
      ReadIsInHeap(heap, id, key);
      PutIf(ErrorFields(heap, id, n - 1, seen, fields), key, SecondPass(heap, Read(heap[id], key), seen))
  }

  // ---------- What becomes of a property ----------

  function Lookup(fields: seq<Field>, key: string): Option<Out> {
    if fields == [] then None
    else if fields[0].key == key then Some(fields[0].out)
    else Lookup(fields[1..], key)
  }

  // One of the error properties, and set.
  predicate IsError(k: string, v: Value) {
    k in ["name", "message", "stack", "code", "cause", "errors"] && !v.Undefined? && !v.Null?
  }

  predicate IsOwn(o: Obj, k: string, v: Value) {
    Entry(k, v) in o.own
  }

  // Reading k gives v, found on the object itself or behind it.
  predicate Gives(o: Obj, k: string, v: Value) {
    IsOwn(o, k, v) || ((forall e :: e in o.own ==> e.key != k) && k in o.hidden && o.hidden[k] == v)
  }

  // An ordinary own property stands as it is; a bigint becomes text, a function is left out, a Buffer and
  // a stream leave a note, and any other object is entered unless it is on the path.
  predicate StandsFor(heap: Heap, v: Value, path: set<nat>, found: Option<Out>)
    requires Closed(heap) && InHeap(heap, v)
  {
    && (v.Undefined? || v.Null? || v.Primitive? ==> found == Some(Kept(v)))
    && (v.BigInt? ==> found == Some(BigIntText(v.digits)))
    && (v.Function? ==> found == None)
    && (v.Ref? && heap[v.id].kind == Buffer ==> found == Some(BufferNote))
    && (v.Ref? && heap[v.id].kind == Stream ==> found == Some(StreamNote))
    && (v.Ref? && heap[v.id].kind == Plain && v.id in path ==> found == Some(Circular))
    && (v.Ref? && heap[v.id].kind == Plain && v.id !in path ==> found == Some(Destroy(heap, v.id, path)))
  }

  // A set error property is copied raw, own or not: any object is entered, everything else is kept.
  predicate IsCopied(heap: Heap, v: Value, path: set<nat>, found: Option<Out>)
    requires Closed(heap) && InHeap(heap, v)
  {
    && (!v.Ref? ==> found == Some(Kept(v)))
    && (v.Ref? && v.id in path ==> found == Some(Circular))
    && (v.Ref? && v.id !in path ==> found == Some(Destroy(heap, v.id, path)))
  }

  // What may stand at k in the result of the object at id.
  ghost predicate PropertyIs(heap: Heap, id: nat, path: set<nat>, k: string, found: Option<Out>)
    requires Closed(heap) && id in heap
  {
    var o := heap[id];
    && (forall v :: IsOwn(o, k, v) && !IsError(k, v) ==> StandsFor(heap, v, path, found))
    && (forall v :: Gives(o, k, v) && IsError(k, v) ==> IsCopied(heap, v, path, found))
    && ((forall v :: !IsOwn(o, k, v) && !(Gives(o, k, v) && IsError(k, v))) ==> found == None)
  }

  ghost predicate IsFlattened(heap: Heap, id: nat, path: set<nat>, out: Out)
    requires Closed(heap) && id in heap
  {
    if heap[id].toJson.Some? then out == FromToJson(heap[id].toJson.value)
    else
      && out.Record? && out.isArray == heap[id].isArray
      && forall k :: PropertyIs(heap, id, path, k, Lookup(out.fields, k))
  }

  lemma {:induction false} LookupPut(fields: seq<Field>, key: string, out: Out, k: string)
    ensures Lookup(Put(fields, key, out), k) == if k == key then Some(out) else Lookup(fields, k)
  {
    if fields != [] && fields[0].key != key {
      LookupPut(fields[1..], key, out, k);
    }
  }

  lemma {:induction false} OwnFieldIs(heap: Heap, own: seq<Entry>, seen: set<nat>, k: string)
    requires Closed(heap) && DistinctKeys(own) && forall e :: e in own ==> InHeap(heap, e.value)
    ensures OwnValue(own, k).Some? ==> InHeap(heap, OwnValue(own, k).value)
    ensures Lookup(OwnFields(heap, own, seen), k) ==
            match OwnValue(own, k) case None => None case Some(v) => FirstPass(heap, v, seen)
  {
    if own != [] {
      var last := own[|own| - 1];
      var rest := own[..|own| - 1];
      OwnFieldIs(heap, rest, seen, k);
      if last.key == k {
        OwnValueIsThere(rest, k);
      }
      var out := FirstPass(heap, last.value, seen);
      if out.Some? {
        LookupPut(OwnFields(heap, rest, seen), last.key, out.value, k);
      }
    }
  }

  lemma {:induction false} ErrorFieldIs(heap: Heap, id: nat, n: nat, seen: set<nat>, fields: seq<Field>, k: string)
    requires Closed(heap) && id in heap && n <= |ERROR_PROPERTIES| && InHeap(heap, Read(heap[id], k))
    ensures Lookup(ErrorFields(heap, id, n, seen, fields), k) ==
            if k in ERROR_PROPERTIES[..n] && SecondPass(heap, Read(heap[id], k), seen).Some?
            then SecondPass(heap, Read(heap[id], k), seen) else Lookup(fields, k)
  {
    if n > 0 {
      var key := ERROR_PROPERTIES[n - 1];
      ErrorFieldIs(heap, id, n - 1, seen, fields, k);
      ReadIsInHeap(heap, id, key);
      assert k in ERROR_PROPERTIES[..n] <==> k in ERROR_PROPERTIES[..n - 1] || k == key;
      var out := SecondPass(heap, Read(heap[id], key), seen);
      if out.Some? {
        LookupPut(ErrorFields(heap, id, n - 1, seen, fields), key, out.value, k);
      }
    }
  }

  lemma {:induction false} OwnValueIs(own: seq<Entry>, k: string, v: Value)
    requires DistinctKeys(own) && Entry(k, v) in own
    ensures OwnValue(own, k) == Some(v)
  {
    var last := own[|own| - 1];
    if last.key == k {
      var i :| 0 <= i < |own| && own[i] == Entry(k, v);
    } else {
      OwnValueIs(own[..|own| - 1], k, v);
    }
  }

  lemma {:induction false} NoOwnValue(own: seq<Entry>, k: string)
    requires forall e :: e in own ==> e.key != k
    ensures OwnValue(own, k) == None
  {
    if own != [] {
      NoOwnValue(own[..|own| - 1], k);
    }
  }

  lemma GivesIsRead(o: Obj, k: string, v: Value)
    requires DistinctKeys(o.own) && Gives(o, k, v)
    ensures Read(o, k) == v
  {
    if IsOwn(o, k, v) {
      OwnValueIs(o.own, k, v);
    } else {
      NoOwnValue(o.own, k);
    }
  }

  lemma ReadIsGiven(o: Obj, k: string)
    ensures OwnValue(o.own, k).Some? ==> IsOwn(o, k, OwnValue(o.own, k).value)
    ensures OwnValue(o.own, k).Some? || k in o.hidden ==> Gives(o, k, Read(o, k))
  {
    OwnValueIsThere(o.own, k);
    if OwnValue(o.own, k).None? {
      forall e | e in o.own ensures e.key != k {
        if e.key == k {
          NoOwnKey(o.own, e);
        }
      }
    }
  }

  lemma {:induction false} NoOwnKey(own: seq<Entry>, e: Entry)
    requires e in own
    ensures OwnValue(own, e.key).Some?
  {
    if own[|own| - 1].key != e.key {
      NoOwnKey(own[..|own| - 1], e);
    }
  }

  lemma LookupIs(heap: Heap, id: nat, seen: set<nat>, k: string)
    requires Closed(heap) && id in heap && id !in seen && heap[id].toJson.None?
    ensures var o := heap[id];
            && InHeap(heap, Read(o, k)) && (OwnValue(o.own, k).Some? ==> InHeap(heap, OwnValue(o.own, k).value))
            && Lookup(Destroy(heap, id, seen).fields, k) ==
               if k in ERROR_PROPERTIES && SecondPass(heap, Read(o, k), seen + {id}).Some?
               then SecondPass(heap, Read(o, k), seen + {id})
               else match OwnValue(o.own, k) case None => None case Some(v) => FirstPass(heap, v, seen + {id})
  {
    var o, path := heap[id], seen + {id};
    ReadIsInHeap(heap, id, k);
    OwnFieldIs(heap, o.own, path, k);
    assert ERROR_PROPERTIES[..|ERROR_PROPERTIES|] == ERROR_PROPERTIES;
    ErrorFieldIs(heap, id, |ERROR_PROPERTIES|, path, OwnFields(heap, o.own, path), k);
  }

  // What stands at a property of the result, for every key.
  lemma PropertyBecomes(heap: Heap, id: nat, seen: set<nat>, k: string)
    requires Closed(heap) && id in heap && id !in seen && heap[id].toJson.None?
    ensures PropertyIs(heap, id, seen + {id}, k, Lookup(Destroy(heap, id, seen).fields, k))
  {
    var o, path := heap[id], seen + {id};
    var found := Lookup(Destroy(heap, id, seen).fields, k);
    LookupIs(heap, id, seen, k);
    forall v | IsOwn(o, k, v) && !IsError(k, v) ensures StandsFor(heap, v, path, found) {
      GivesIsRead(o, k, v);
      OwnValueIs(o.own, k, v);
    }
    forall v | Gives(o, k, v) && IsError(k, v) ensures IsCopied(heap, v, path, found) {
      GivesIsRead(o, k, v);
    }
    ReadIsGiven(o, k);
  }

  // What becomes of every property of the object, and of nothing else.
  lemma DestroyFlattens(heap: Heap, id: nat, seen: set<nat>)
    requires Closed(heap) && id in heap && id !in seen
    ensures IsFlattened(heap, id, seen + {id}, Destroy(heap, id, seen))
  {
    if heap[id].toJson.None? {
      forall k ensures PropertyIs(heap, id, seen + {id}, k, Lookup(Destroy(heap, id, seen).fields, k)) {
        PropertyBecomes(heap, id, seen, k);
      }
    }
  }

  // The walk as the code makes it: one set for the current path, added to and restored.
  class Serializer {
    const heap: Heap
    var seen: set<nat>

    constructor (heap: Heap)
      ensures this.heap == heap && seen == {}
    {
      this.heap := heap;
      seen := {};
    }

    method DestroyCircular(id: nat) returns (out: Out)
      requires Closed(heap) && id in heap && id !in seen
      modifies this`seen
      ensures seen == old(seen) && out == Destroy(heap, id, old(seen))
      ensures IsFlattened(heap, id, old(seen) + {id}, out)
      decreases heap.Keys - seen, 0
    {
      var o := heap[id];
      DestroyFlattens(heap, id, seen);
      seen := seen + {id};
      if o.toJson.Some? {
        seen := seen - {id};
        return FromToJson(o.toJson.value);
      }
      ghost var path := seen;
      var fields := [];
      for i := 0 to |o.own|
        invariant seen == path && fields == OwnFields(heap, o.own[..i], path)
      {
        assert o.own[..i + 1][..i] == o.own[..i];
        var value := o.own[i].value;
        if value.Ref? {
          if heap[value.id].kind == Buffer {
            fields := Put(fields, o.own[i].key, BufferNote);
          } else if heap[value.id].kind == Stream {
            fields := Put(fields, o.own[i].key, StreamNote);
          } else {
            var part := Recurse(value.id);
            fields := Put(fields, o.own[i].key, part);
          }
        } else if value.Function? {
        } else if value.BigInt? {
          fields := Put(fields, o.own[i].key, BigIntText(value.digits));
        } else {
          fields := Put(fields, o.own[i].key, Kept(value));
        }
      }
      assert o.own[..|o.own|] == o.own;
      ghost var copied := fields;
      for i := 0 to |ERROR_PROPERTIES|
        invariant seen == path && fields == ErrorFields(heap, id, i, path, copied)
      {
        var property := ERROR_PROPERTIES[i];
        var value := Read(o, property);
        ReadIsInHeap(heap, id, property);
        if !value.Undefined? && !value.Null? {
          var processed := Kept(value);
          if value.Ref? {
            processed := Recurse(value.id);
          }
          fields := Put(fields, property, processed);
        }
      }
      seen := seen - {id};
      out := Record(o.isArray, fields);
    }

    method Recurse(id: nat) returns (out: Out)
      requires Closed(heap) && id in heap
      modifies this`seen
      ensures seen == old(seen) && out == Visit(heap, id, old(seen))
      decreases heap.Keys - seen, 1
    {
      if id in seen {
        out := Circular;
      } else {
        out := DestroyCircular(id);
      }
    }
  }

  // ---------- Where a property leads ----------

  // The object that a property leads into. For an error property that is set, the second pass decides,
  // whatever the object is; elsewhere Buffers and streams are not entered.
  function Target(heap: Heap, id: nat, key: string): Option<nat>
    requires Closed(heap) && id in heap
  {
    var o := heap[id];
    ReadIsInHeap(heap, id, key);
    var v := Read(o, key);
    if key in ERROR_PROPERTIES && !v.Undefined? && !v.Null? then
      if v.Ref? then Some(v.id) else None
    else
      match OwnValue(o.own, key)
      case None => None
      case Some(v) => if v.Ref? && heap[v.id].kind == Plain then Some(v.id) else None
  }

  predicate IsLeaf(out: Out) {
    !out.Circular? && !out.Record? && !out.FromToJson?
  }

  // What stands at a property of the result.
  lemma FieldIs(heap: Heap, id: nat, seen: set<nat>, k: string)
    requires Closed(heap) && id in heap && id !in seen && heap[id].toJson.None?
    ensures var found, target := Lookup(Destroy(heap, id, seen).fields, k), Target(heap, id, k);
            if target.Some? then target.value in heap && found == Some(Visit(heap, target.value, seen + {id}))
            else found.Some? ==> IsLeaf(found.value)
    ensures PropertyIs(heap, id, seen + {id}, k, Lookup(Destroy(heap, id, seen).fields, k))
  {
    LookupIs(heap, id, seen, k);
    PropertyBecomes(heap, id, seen, k);
  }

  // The second pass decides an error property that is set: a Buffer or a stream there is entered, a
  // function or a bigint is kept as it is.
  lemma ErrorPropertiesAreCopiedRaw(heap: Heap, id: nat, seen: set<nat>, k: string)
    requires Closed(heap) && id in heap && id !in seen && heap[id].toJson.None? && k in ERROR_PROPERTIES
    requires !Read(heap[id], k).Undefined? && !Read(heap[id], k).Null?
    ensures InHeap(heap, Read(heap[id], k))
    ensures Lookup(Destroy(heap, id, seen).fields, k) ==
            var value := Read(heap[id], k);
            Some(if value.Ref? then Visit(heap, value.id, seen + {id}) else Kept(value))
  {
    LookupIs(heap, id, seen, k);
  }

  // ---------- The keys of the result ----------

  function Names(fields: seq<Field>): seq<string> {
    if fields == [] then [] else [fields[0].key] + Names(fields[1..])
  }

  // The own keys in order, without those of functions.
  function KeptKeys(own: seq<Entry>): seq<string> {
    if own == [] then []
    else (if own[0].value.Function? then [] else [own[0].key]) + KeptKeys(own[1..])
  }

  // Those of the named properties that are set, without the keys that are there already.
  function Added(o: Obj, names: seq<string>, keys: seq<string>): seq<string> {
    if names == [] then []
    else
      var name := names[|names| - 1];
      Added(o, names[..|names| - 1], keys) + if IsError(name, Read(o, name)) && name !in keys then [name] else []
  }

  lemma {:induction false} NamesOfPut(fields: seq<Field>, key: string, out: Out)
    ensures Names(Put(fields, key, out)) == if key in Names(fields) then Names(fields) else Names(fields) + [key]
  {
    if fields != [] && fields[0].key != key {
      NamesOfPut(fields[1..], key, out);
    }
  }

  lemma {:induction false} KeptKeysGrow(own: seq<Entry>)
    requires own != []
    ensures var last := own[|own| - 1];
            KeptKeys(own) == KeptKeys(own[..|own| - 1]) + if last.value.Function? then [] else [last.key]
  {
    if |own| > 1 {
      KeptKeysGrow(own[1..]);
      assert own[1..][..|own| - 2] == own[..|own| - 1][1..];
    }
  }

  lemma {:induction false} KeptKeysAreOwn(own: seq<Entry>, key: string)
    requires key in KeptKeys(own)
    ensures exists e :: e in own && e.key == key
  {
    if own[0].value.Function? || own[0].key != key {
      KeptKeysAreOwn(own[1..], key);
      var e :| e in own[1..] && e.key == key;
      assert e in own;
    }
  }

  lemma {:induction false} OwnFieldsAreInOrder(heap: Heap, own: seq<Entry>, seen: set<nat>)
    requires Closed(heap) && DistinctKeys(own) && forall e :: e in own ==> InHeap(heap, e.value)
    ensures Names(OwnFields(heap, own, seen)) == KeptKeys(own)
  {
    if own != [] {
      var rest, last := own[..|own| - 1], own[|own| - 1];
      OwnFieldsAreInOrder(heap, rest, seen);
      KeptKeysGrow(own);
      if last.key in KeptKeys(rest) {
        KeptKeysAreOwn(rest, last.key);
      }
      var out := FirstPass(heap, last.value, seen);
      if out.Some? {
        NamesOfPut(OwnFields(heap, rest, seen), last.key, out.value);
      }
    }
  }

  lemma {:induction false} AddedAreNamed(o: Obj, names: seq<string>, keys: seq<string>)
    ensures forall k :: k in Added(o, names, keys) ==> k in names
  {
    if names != [] {
      AddedAreNamed(o, names[..|names| - 1], keys);
    }
  }

  lemma ErrorPropertiesAreDistinct(n: nat)
    requires n < 6
    ensures |ERROR_PROPERTIES| == 6 && ERROR_PROPERTIES[n] !in ERROR_PROPERTIES[..n]
  {
    assert forall i :: 0 <= i < n ==> ERROR_PROPERTIES[..n][i] == ERROR_PROPERTIES[i] != ERROR_PROPERTIES[n];
  }

  lemma AddedGrow(o: Obj, n: nat, keys: seq<string>)
    requires n < 6
    ensures var key, before := ERROR_PROPERTIES[n], Added(o, ERROR_PROPERTIES[..n], keys);
            && key !in before
            && Added(o, ERROR_PROPERTIES[..n + 1], keys) ==
               before + if IsError(key, Read(o, key)) && key !in keys then [key] else []
  {
    assert ERROR_PROPERTIES[..n + 1][..n] == ERROR_PROPERTIES[..n];
    AddedAreNamed(o, ERROR_PROPERTIES[..n], keys);
    ErrorPropertiesAreDistinct(n);
  }

  lemma SetIffError(heap: Heap, id: nat, n: nat, seen: set<nat>)
    requires Closed(heap) && id in heap && n < 6
    ensures var key := ERROR_PROPERTIES[n]; var v := Read(heap[id], key);
            InHeap(heap, v) && (SecondPass(heap, v, seen).Some? <==> IsError(key, v))
  {
    ReadIsInHeap(heap, id, ERROR_PROPERTIES[n]);
  }

  lemma {:induction false} ErrorFieldsAreInOrder(heap: Heap, id: nat, n: nat, seen: set<nat>, fields: seq<Field>)
    requires Closed(heap) && id in heap && n <= 6
    ensures Names(ErrorFields(heap, id, n, seen, fields)) ==
            Names(fields) + Added(heap[id], ERROR_PROPERTIES[..n], Names(fields))
  {
    if n > 0 {
      var key := ERROR_PROPERTIES[n - 1];
      ErrorFieldsAreInOrder(heap, id, n - 1, seen, fields);
      SetIffError(heap, id, n - 1, seen);
      AddedGrow(heap[id], n - 1, Names(fields));
      var out := SecondPass(heap, Read(heap[id], key), seen);
      if out.Some? {
        NamesOfPut(ErrorFields(heap, id, n - 1, seen, fields), key, out.value);
      }
    }
  }

  // The own keys keep their order, and the set error properties that are not among them follow.
  lemma KeysAreInOrder(heap: Heap, id: nat, seen: set<nat>)
    requires Closed(heap) && id in heap && id !in seen && heap[id].toJson.None?
    ensures var kept := KeptKeys(heap[id].own);
            Names(Destroy(heap, id, seen).fields) ==
            kept + Added(heap[id], ["name", "message", "stack", "code", "cause", "errors"], kept)
  {
    OwnFieldsAreInOrder(heap, heap[id].own, seen + {id});
    ErrorFieldsAreInOrder(heap, id, 6, seen + {id}, OwnFields(heap, heap[id].own, seen + {id}));
    assert ERROR_PROPERTIES[..6] == ["name", "message", "stack", "code", "cause", "errors"];
  }

  // ---------- Where the walk is cut ----------

  // What stands at the end of a path of property names.
  function At(out: Out, keys: seq<string>): Option<Out>
    decreases |keys|
  {
    if keys == [] then Some(out)
    else if !out.Record? then None
    else
      match Lookup(out.fields, keys[0])
      case None => None
      case Some(part) => At(part, keys[1..])
  }

  // The objects a path leads through, from the object at id on.
  function Trail(heap: Heap, id: nat, keys: seq<string>): Option<seq<nat>>
    requires Closed(heap) && id in heap
    decreases |keys|
  {
    if keys == [] then Some([id])
    else if heap[id].toJson.Some? then None
    else
      match Target(heap, id, keys[0])
      case None => None
      case Some(r) =>
        ReadIsInHeap(heap, id, keys[0]);
        match Trail(heap, r, keys[1..])
        case None => None
        case Some(trail) => Some([id] + trail)
  }

  // All objects but the last are different ones, off the path so far; the last is on the path.
  predicate Returns(trail: seq<nat>, seen: set<nat>) {
    && |trail| >= 2
    && (forall i, j :: 0 <= i < j < |trail| - 1 ==> trail[i] != trail[j])
    && (forall i :: 0 <= i < |trail| - 1 ==> trail[i] !in seen)
    && (trail[|trail| - 1] in seen || trail[|trail| - 1] in trail[..|trail| - 1])
  }

  lemma {:induction false} TrailLength(heap: Heap, id: nat, keys: seq<string>)
    requires Closed(heap) && id in heap && Trail(heap, id, keys).Some?
    ensures var trail := Trail(heap, id, keys).value; |trail| == |keys| + 1 && trail[0] == id
    decreases |keys|
  {
    if keys != [] {
      ReadIsInHeap(heap, id, keys[0]);
      TrailLength(heap, Target(heap, id, keys[0]).value, keys[1..]);
    }
  }

  lemma ReturnsStep(id: nat, rest: seq<nat>, seen: set<nat>)
    requires id !in seen && rest != []
    ensures |rest| == 1 ==> (Returns([id] + rest, seen) <==> rest[0] in seen + {id})
    ensures |rest| >= 2 && rest[0] in seen + {id} ==> !Returns([id] + rest, seen)
    ensures |rest| >= 2 && rest[0] !in seen + {id} ==> (Returns([id] + rest, seen) <==> Returns(rest, seen + {id}))
  {
    var trail := [id] + rest;
    var n := |rest|;
    assert trail[..|trail| - 1] == [id] + rest[..n - 1];
    if n >= 2 {
      assert trail[1] == rest[0];
      if Returns(trail, seen) {
        forall i | 0 <= i < n - 1 ensures rest[i] !in seen + {id} {
          assert trail[0] != trail[i + 1];
        }
        forall i, j | 0 <= i < j < n - 1 ensures rest[i] != rest[j] {
          assert trail[i + 1] != trail[j + 1];
        }
      }
    }
  }

  lemma {:induction false} CutWhereItReturns(heap: Heap, id: nat, seen: set<nat>, keys: seq<string>)
    requires Closed(heap) && id in heap && id !in seen
    ensures At(Destroy(heap, id, seen), keys) == Some(Circular) <==>
            Trail(heap, id, keys).Some? && Returns(Trail(heap, id, keys).value, seen)
    decreases |keys|
  {
    if keys != [] && heap[id].toJson.None? {
      FieldIs(heap, id, seen, keys[0]);
      var target := Target(heap, id, keys[0]);
      if target.Some? {
        var r := target.value;
        if r !in seen + {id} {
          CutWhereItReturns(heap, r, seen + {id}, keys[1..]);
        }
        if Trail(heap, r, keys[1..]).Some? {
          TrailLength(heap, r, keys[1..]);
          ReturnsStep(id, Trail(heap, r, keys[1..]).value, seen);
        }
      }
    }
  }

  // The mark stands exactly at the references to an object on the current path.
  lemma CircularIffOnPath(heap: Heap, id: nat, keys: seq<string>)
    requires Closed(heap) && id in heap
    ensures At(Destroy(heap, id, {}), keys) == Some(Circular) <==>
            var trail := Trail(heap, id, keys);
            && trail.Some? && keys != []
            && (forall i, j :: 0 <= i < j < |trail.value| - 1 ==> trail.value[i] != trail.value[j])
            && trail.value[|trail.value| - 1] in trail.value[..|trail.value| - 1]
  {
    CutWhereItReturns(heap, id, {}, keys);
    if Trail(heap, id, keys).Some? {
      TrailLength(heap, id, keys);
    }
  }

  // ---------- The result is a tree ----------

  predicate IsTree(out: Out) {
    match out
    case Kept(v) => !v.Ref?
    case Record(_, fields) => forall f :: f in fields ==> IsTree(f.out)
    case _ => true
  }

  predicate AreTrees(fields: seq<Field>) {
    forall f :: f in fields ==> IsTree(f.out)
  }

  lemma {:induction false} PutKeepsTrees(fields: seq<Field>, key: string, out: Out)
    requires AreTrees(fields) && IsTree(out)
    ensures AreTrees(Put(fields, key, out))
  {
    if fields != [] && fields[0].key != key {
      assert AreTrees(fields[1..]);
      PutKeepsTrees(fields[1..], key, out);
    }
  }

  // Nothing in the result refers to an object any more.
  lemma {:induction false} ResultIsATree(heap: Heap, id: nat, seen: set<nat>)
    requires Closed(heap) && id in heap && id !in seen
    ensures IsTree(Destroy(heap, id, seen))
    decreases heap.Keys - seen, 0
  {
    if heap[id].toJson.None? {
      OwnFieldsAreTrees(heap, heap[id].own, seen + {id});
      ErrorFieldsAreTrees(heap, id, |ERROR_PROPERTIES|, seen + {id}, OwnFields(heap, heap[id].own, seen + {id}));
    }
  }

  lemma {:induction false} VisitIsATree(heap: Heap, id: nat, seen: set<nat>)
    requires Closed(heap) && id in heap
    ensures IsTree(Visit(heap, id, seen))
    decreases heap.Keys - seen, 1
  {
    if id !in seen {
      ResultIsATree(heap, id, seen);
    }
  }

  lemma {:induction false} OwnFieldsAreTrees(heap: Heap, own: seq<Entry>, seen: set<nat>)
    requires Closed(heap) && forall e :: e in own ==> InHeap(heap, e.value)
    ensures AreTrees(OwnFields(heap, own, seen))
    decreases heap.Keys - seen, 3 + |own|
  {
    if own != [] {
      var last := own[|own| - 1];
      OwnFieldsAreTrees(heap, own[..|own| - 1], seen);
      if last.value.Ref? {
        VisitIsATree(heap, last.value.id, seen);
      }
      var out := FirstPass(heap, last.value, seen);
      if out.Some? {
        PutKeepsTrees(OwnFields(heap, own[..|own| - 1], seen), last.key, out.value);
      }
    }
  }

  lemma {:induction false} ErrorFieldsAreTrees(heap: Heap, id: nat, n: nat, seen: set<nat>, fields: seq<Field>)
    requires Closed(heap) && id in heap && n <= |ERROR_PROPERTIES| && AreTrees(fields)
    ensures AreTrees(ErrorFields(heap, id, n, seen, fields))
    decreases heap.Keys - seen, 3 + n
  {
    if n > 0 {
      var key := ERROR_PROPERTIES[n - 1];
      ErrorFieldsAreTrees(heap, id, n - 1, seen, fields);
      ReadIsInHeap(heap, id, key);
      var value := Read(heap[id], key);
      if value.Ref? {
        VisitIsATree(heap, value.id, seen);
      }
      var out := SecondPass(heap, value, seen);
      if out.Some? {
        PutKeepsTrees(ErrorFields(heap, id, n - 1, seen, fields), key, out.value);
      }
    }
  }
}
