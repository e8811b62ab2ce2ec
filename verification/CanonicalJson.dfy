/** `canonicalJson`: the recursive printer over a graph of heap objects, with its set of ancestors and its
    depth bound. */
module CanonicalJson {
  import opened Common
  import opened CanonicalText

  const MAX_DEPTH := 100

  /** A number: `Finite` by its shortest decimal text; `-0` prints as zero does. */
  datatype Numeric = Finite(text: NumberText) | NegativeZero | NaN | Infinite(negative: bool)

  /** `NotJson` stands for a function, a bigint or a symbol. */
  datatype Value =
    | Null
    | Boolean(b: bool)
    | Number(n: Numeric)
    | Str(s: Text)
    | Undefined
    | NotJson
    | Ref(o: JsObject)

  datatype Property = Property(key: Text, value: Value)

  /** An array, a plain object with its own enumerable properties in the order they were made, or any other
      object (a `Date`, a `Map`). */
  datatype Content = Elements(items: seq<Value>) | Properties(own: seq<Property>) | NotPlain

  class JsObject {
    var content: Content
  }

  /** The set the source passes down and restores. */
  class Ancestors {
    var objects: set<JsObject>

    constructor ()
      ensures objects == {}
    {
      objects := {};
    }
  }

  datatype Part = Key(key: Text) | At(index: nat)
  type Path = seq<Part>

  datatype Reason = NonFiniteNumber | UnsupportedValue | Cyclic | TooDeep
  datatype Outcome = Canonical(text: Text) | Refused(reason: Reason, at: Path)

  // ---------------------------------------------------------------------------
  // Keys.
  // ---------------------------------------------------------------------------

  /** Order by UTF-16 code unit. */
  predicate Less(a: Text, b: Text) {
    if |b| == 0 then false
    else if |a| == 0 then true
    else a[0] < b[0] || (a[0] == b[0] && Less(a[1..], b[1..]))
  }

  function Insert(key: Text, keys: seq<Text>): (r: seq<Text>)
    ensures multiset(r) == multiset(keys) + multiset{key}
  {
    if |keys| == 0 || Less(key, keys[0]) then [key] + keys
    else
      assert keys == [keys[0]] + keys[1..];
      [keys[0]] + Insert(key, keys[1..])
  }

  function Sort(keys: seq<Text>): (r: seq<Text>)
    ensures multiset(r) == multiset(keys)
  {
    if |keys| == 0 then []
    else
      assert keys == [keys[0]] + keys[1..];
      Insert(keys[0], Sort(keys[1..]))
  }

  function KeysOf(own: seq<Property>): (keys: seq<Text>)
    ensures |keys| == |own| && forall i :: 0 <= i < |own| ==> keys[i] == own[i].key
  {
    seq(|own|, i requires 0 <= i < |own| => own[i].key)
  }

  /** `source[key]`, undefined when there is no such property. */
  function Lookup(own: seq<Property>, key: Text): Value {
    if |own| == 0 then Undefined else if own[0].key == key then own[0].value else Lookup(own[1..], key)
  }

  function Defined(own: seq<Property>, keys: seq<Text>): (r: seq<Text>)
    ensures forall k :: k in r <==> k in keys && !Lookup(own, k).Undefined?
    decreases |keys|
  {
    if |keys| == 0 then []
    else
      var n := |keys| - 1;
      Defined(own, keys[..n]) + if Lookup(own, keys[n]).Undefined? then [] else [keys[n]]
  }

  /** The keys printed, in order. */
  function PrintedKeys(own: seq<Property>): (r: seq<Text>) {
    Defined(own, Sort(KeysOf(own)))
  }

  ghost predicate Ascending(keys: seq<Text>) {
    forall i, j :: 0 <= i < j < |keys| ==> Less(keys[i], keys[j])
  }

  lemma {:induction false} LessIsOrder(a: Text, b: Text, c: Text)
    ensures !Less(a, a)
    ensures Less(a, b) && Less(b, c) ==> Less(a, c)
    ensures Less(a, b) || a == b || Less(b, a)
    decreases |a|
  {
    if |a| > 0 {
      if |b| > 0 && |c| > 0 {
        LessIsOrder(a[1..], b[1..], c[1..]);
      } else if |b| > 0 {
        LessIsOrder(a[1..], b[1..], []);
      } else {
        LessIsOrder(a[1..], [], []);
      }
      if |b| > 0 && a[0] == b[0] && a[1..] == b[1..] {
        assert a == [a[0]] + a[1..] == [b[0]] + b[1..] == b;
      }
    }
  }

  /** Where two keys first differ, the smaller unit comes first, and a key before those it begins. */
  ghost predicate Earlier(a: Text, b: Text) {
    exists n: nat :: n <= |a| && n <= |b| && a[..n] == b[..n] && EarlierAt(a, b, n)
  }

  predicate EarlierAt(a: Text, b: Text, n: nat) {
    n < |b| && (n == |a| || (n < |a| && a[n] < b[n]))
  }

  lemma {:induction false} LessIsEarlier(a: Text, b: Text)
    ensures Less(a, b) <==> Earlier(a, b)
    decreases |a|
  {
    if |a| == 0 || |b| == 0 || a[0] != b[0] {
      assert a[..0] == b[..0];
      assert |b| > 0 && (|a| == 0 || a[0] < b[0]) ==> EarlierAt(a, b, 0);
    } else {
      LessIsEarlier(a[1..], b[1..]);
      if Earlier(a[1..], b[1..]) {
        var n: nat :| n <= |a[1..]| && n <= |b[1..]| && a[1..][..n] == b[1..][..n] && EarlierAt(a[1..], b[1..], n);
        assert a[..n + 1] == [a[0]] + a[1..][..n];
        assert b[..n + 1] == [b[0]] + b[1..][..n];
        assert EarlierAt(a, b, n + 1);
      }
      if Earlier(a, b) {
        var n: nat :| n <= |a| && n <= |b| && a[..n] == b[..n] && EarlierAt(a, b, n);
        assert a[1..][..n - 1] == a[..n][1..] == b[..n][1..] == b[1..][..n - 1];
        assert EarlierAt(a[1..], b[1..], n - 1);
      }
    }
  }

  lemma {:induction false} InsertAscends(key: Text, keys: seq<Text>)
    requires Ascending(keys) && key !in keys
    ensures Ascending(Insert(key, keys)) && forall k :: k in Insert(key, keys) <==> k in keys || k == key
  {
    if |keys| == 0 {
    } else if Less(key, keys[0]) {
      forall j | 0 <= j < |keys| ensures Less(key, keys[j]) {
        if j > 0 {
          LessIsOrder(key, keys[0], keys[j]);
        }
      }
    } else {
      LessIsOrder(key, keys[0], key);
      InsertAscends(key, keys[1..]);
      var rest := Insert(key, keys[1..]);
      forall j | 0 <= j < |rest| ensures Less(keys[0], rest[j]) {
        assert rest[j] in keys[1..] || rest[j] == key;
      }
    }
  }

  ghost predicate Distinct(keys: seq<Text>) {
    forall i, j :: 0 <= i < j < |keys| ==> keys[i] != keys[j]
  }

  lemma {:induction false} SortAscends(keys: seq<Text>)
    requires Distinct(keys)
    ensures Ascending(Sort(keys)) && forall k :: k in Sort(keys) <==> k in keys
  {
    if |keys| > 0 {
      SortAscends(keys[1..]);
      InsertAscends(keys[0], Sort(keys[1..]));
    }
  }

  lemma {:induction false} DefinedAscends(own: seq<Property>, keys: seq<Text>)
    requires Ascending(keys)
    ensures Ascending(Defined(own, keys))
    decreases |keys|
  {
    if |keys| > 0 {
      var n := |keys| - 1;
      DefinedAscends(own, keys[..n]);
      forall k | k in Defined(own, keys[..n]) ensures Less(k, keys[n]) {
        assert k in keys[..n];
      }
    }
  }

  /** One way to put the same keys in order. */
  lemma {:induction false} AscendingIsUnique(a: seq<Text>, b: seq<Text>)
    requires Ascending(a) && Ascending(b) && forall k :: k in a <==> k in b
    ensures a == b
    decreases |a|
  {
    assert |b| > 0 ==> b[0] in a;
    if |a| > 0 {
      assert a[0] in b;
      var i :| 0 <= i < |b| && b[i] == a[0];
      assert b[0] in a;
      var j :| 0 <= j < |a| && a[j] == b[0];
      LessIsOrder(a[0], b[0], a[0]);
      assert a[0] == b[0];
      forall k ensures k in a[1..] <==> k in b[1..] {
        LessIsOrder(k, k, k);
        assert k in a[1..] ==> k in a && k != a[0];
        assert k in b[1..] ==> k in b && k != b[0];
      }
      AscendingIsUnique(a[1..], b[1..]);
      assert a == [a[0]] + a[1..] && b == [b[0]] + b[1..];
    }
  }

  // ---------------------------------------------------------------------------
  // The value a graph unfolds to.
  // ---------------------------------------------------------------------------

  predicate InGraph(graph: set<JsObject>, v: Value) {
    v.Ref? ==> v.o in graph
  }

  predicate Has(c: Content, v: Value) {
    match c
    case Elements(items) => v in items
    case Properties(own) => exists i :: 0 <= i < |own| && own[i].value == v
    case NotPlain => false
  }

  /** The objects reachable from a body; no object has two properties of one name. */
  ghost predicate Closed(graph: set<JsObject>)
    reads graph
  {
    && (forall o :: o in graph && o.content.Elements? ==> forall v :: v in o.content.items ==> InGraph(graph, v))
    && (forall o :: o in graph && o.content.Properties? ==>
          && Distinct(KeysOf(o.content.own))
          && forall i :: 0 <= i < |o.content.own| ==> InGraph(graph, o.content.own[i].value))
  }

  lemma {:induction false} LookupInGraph(graph: set<JsObject>, own: seq<Property>, key: Text)
    requires forall i :: 0 <= i < |own| ==> InGraph(graph, own[i].value)
    ensures InGraph(graph, Lookup(own, key))
    ensures !Lookup(own, key).Undefined? ==> Has(Properties(own), Lookup(own, key))
  {
    if |own| > 0 && own[0].key != key {
      LookupInGraph(graph, own[1..], key);
      if !Lookup(own, key).Undefined? {
        var i :| 0 <= i < |own[1..]| && own[1..][i].value == Lookup(own, key);
        assert own[i + 1].value == Lookup(own, key);
      }
    } else if |own| > 0 {
      assert own[0].value == Lookup(own, key);
    }
  }

  function NumberJson(n: Numeric): Option<Json> {
    match n
    case Finite(text) => Some(JNumber(text))
    case NegativeZero => Some(JNumber(ZERO_TEXT))
    case _ => None
  }

  /** The JSON value a body stands for, entered `depth` containers down; none when some part of it is not
      JSON or lies too deep.  There is no set of ancestors here. */
  ghost function Unfold(graph: set<JsObject>, v: Value, depth: nat): Option<Json>
    requires Closed(graph) && InGraph(graph, v)
    reads graph
    decreases MAX_DEPTH - depth, 1, 0
  {
    match v
    case Null => Some(JNull)
    case Boolean(b) => Some(JBool(b))
    case Number(n) => NumberJson(n)
    case Str(s) => Some(JString(s))
    case Ref(o) =>
      if depth >= MAX_DEPTH then None
      else
        (match o.content
         case Elements(items) =>
           var all := UnfoldItems(graph, items, depth + 1);
           if all.None? then None else Some(JArray(all.value))
         case Properties(own) =>
           var all := UnfoldFields(graph, own, PrintedKeys(own), depth + 1);
           if all.None? then None else Some(JObject(all.value))
         case NotPlain => None)
    case _ => None
  }

  ghost function UnfoldItems(graph: set<JsObject>, items: seq<Value>, depth: nat): (r: Option<seq<Json>>)
    requires Closed(graph) && forall v :: v in items ==> InGraph(graph, v)
    ensures r.Some? ==> |r.value| == |items|
    reads graph
    decreases MAX_DEPTH - depth, 2, |items|
  {
    if |items| == 0 then Some([])
    else
      var n := |items| - 1;
      var some, last := UnfoldItems(graph, items[..n], depth), Unfold(graph, items[n], depth);
      if some.None? || last.None? then None else Some(some.value + [last.value])
  }

  ghost predicate OwnInGraph(graph: set<JsObject>, own: seq<Property>) {
    forall i :: 0 <= i < |own| ==> InGraph(graph, own[i].value)
  }

  ghost function UnfoldFields(graph: set<JsObject>, own: seq<Property>, keys: seq<Text>,
      depth: nat): (r: Option<seq<Field>>)
    requires Closed(graph) && OwnInGraph(graph, own)
    ensures r.Some? ==> |r.value| == |keys|
    reads graph
    decreases MAX_DEPTH - depth, 2, |keys|
  {
    if |keys| == 0 then Some([])
    else
      var n := |keys| - 1;
      LookupInGraph(graph, own, keys[n]);
      var some, last := UnfoldFields(graph, own, keys[..n], depth), Unfold(graph, Lookup(own, keys[n]), depth);
      if some.None? || last.None? then None else Some(some.value + [Field(keys[n], last.value)])
  }

  // ---------------------------------------------------------------------------
  // A body that contains itself does not unfold.
  // ---------------------------------------------------------------------------

  function Size(j: Json): nat {
    match j
    case JArray(items) => 1 + ItemsSize(items)
    case JObject(fields) => 1 + FieldsSize(fields)
    case _ => 1
  }

  function ItemsSize(items: seq<Json>): nat {
    if |items| == 0 then 0 else ItemsSize(items[..|items| - 1]) + Size(items[|items| - 1])
  }

  function FieldsSize(fields: seq<Field>): nat {
    if |fields| == 0 then 0 else FieldsSize(fields[..|fields| - 1]) + Size(fields[|fields| - 1].value)
  }

  /** What unfolds lower down unfolds higher up, to the same value. */
  lemma {:induction false} UnfoldsHigher(graph: set<JsObject>, v: Value, depth: nat, higher: nat)
    requires Closed(graph) && InGraph(graph, v) && higher <= depth && Unfold(graph, v, depth).Some?
    ensures Unfold(graph, v, higher) == Unfold(graph, v, depth)
    decreases MAX_DEPTH - depth, 1, 0
  {
    hide UnfoldItems, UnfoldFields, PrintedKeys, Distinct;
    if v.Ref? && v.o.content.Elements? {
      ItemsUnfoldHigher(graph, v.o.content.items, depth + 1, higher + 1);
    } else if v.Ref? && v.o.content.Properties? {
      FieldsUnfoldHigher(graph, v.o.content.own, PrintedKeys(v.o.content.own), depth + 1, higher + 1);
    }
  }

  lemma {:induction false} ItemsUnfoldHigher(graph: set<JsObject>, items: seq<Value>, depth: nat, higher: nat)
    requires Closed(graph) && forall v :: v in items ==> InGraph(graph, v)
    requires higher <= depth && UnfoldItems(graph, items, depth).Some?
    ensures UnfoldItems(graph, items, higher) == UnfoldItems(graph, items, depth)
    decreases MAX_DEPTH - depth, 2, |items|
  {
    if |items| > 0 {
      ItemsUnfoldHigher(graph, items[..|items| - 1], depth, higher);
      UnfoldsHigher(graph, items[|items| - 1], depth, higher);
    }
  }

  lemma {:induction false} FieldsUnfoldHigher(graph: set<JsObject>, own: seq<Property>, keys: seq<Text>, depth: nat,
      higher: nat)
    requires Closed(graph) && OwnInGraph(graph, own)
    requires higher <= depth && UnfoldFields(graph, own, keys, depth).Some?
    ensures UnfoldFields(graph, own, keys, higher) == UnfoldFields(graph, own, keys, depth)
    decreases MAX_DEPTH - depth, 2, |keys|
  {
    if |keys| > 0 {
      FieldsUnfoldHigher(graph, own, keys[..|keys| - 1], depth, higher);
      LookupInGraph(graph, own, keys[|keys| - 1]);
      UnfoldsHigher(graph, Lookup(own, keys[|keys| - 1]), depth, higher);
    }
  }

  lemma {:induction false} ItemIsSmaller(graph: set<JsObject>, items: seq<Value>, depth: nat, i: nat)
    requires Closed(graph) && forall v :: v in items ==> InGraph(graph, v)
    requires i < |items| && UnfoldItems(graph, items, depth).Some?
    ensures var item := Unfold(graph, items[i], depth);
            item.Some? && Size(item.value) <= ItemsSize(UnfoldItems(graph, items, depth).value)
    decreases |items|
  {
    var n := |items| - 1;
    var all := UnfoldItems(graph, items, depth).value;
    assert all[..|all| - 1] == UnfoldItems(graph, items[..n], depth).value;
    if i < n {
      ItemIsSmaller(graph, items[..n], depth, i);
    }
  }

  lemma {:induction false} FieldIsSmaller(graph: set<JsObject>, own: seq<Property>, keys: seq<Text>, depth: nat, i: nat)
    requires Closed(graph) && OwnInGraph(graph, own)
    requires i < |keys| && UnfoldFields(graph, own, keys, depth).Some?
    ensures InGraph(graph, Lookup(own, keys[i]))
    ensures var value := Unfold(graph, Lookup(own, keys[i]), depth);
            value.Some? && Size(value.value) <= FieldsSize(UnfoldFields(graph, own, keys, depth).value)
    decreases |keys|
  {
    var n := |keys| - 1;
    var all := UnfoldFields(graph, own, keys, depth).value;
    assert all[..|all| - 1] == UnfoldFields(graph, own, keys[..n], depth).value;
    LookupInGraph(graph, own, keys[n]);
    if i < n {
      FieldIsSmaller(graph, own, keys[..n], depth, i);
    }
  }

  /** The recursion enters `v` from `o`: an item, or a defined property. */
  ghost predicate Enters(o: JsObject, v: Value)
    reads o
  {
    match o.content
    case Elements(items) => v in items
    case Properties(own) => exists key :: key in PrintedKeys(own) && Lookup(own, key) == v
    case NotPlain => false
  }

  lemma EnteredIsInGraph(graph: set<JsObject>, o: JsObject, v: Value)
    requires Closed(graph) && o in graph && Enters(o, v)
    ensures InGraph(graph, v)
  {
    if o.content.Properties? {
      var key :| key in PrintedKeys(o.content.own) && Lookup(o.content.own, key) == v;
      LookupInGraph(graph, o.content.own, key);
    }
  }

  lemma EnteredIsSmaller(graph: set<JsObject>, o: JsObject, v: Value, depth: nat)
    requires Closed(graph) && o in graph && Enters(o, v) && Unfold(graph, Ref(o), depth).Some?
    ensures InGraph(graph, v) && Unfold(graph, v, depth + 1).Some?
    ensures Size(Unfold(graph, v, depth + 1).value) < Size(Unfold(graph, Ref(o), depth).value)
  {
    hide UnfoldItems, UnfoldFields, PrintedKeys, Distinct, ItemsSize, FieldsSize;
    EnteredIsInGraph(graph, o, v);
    match o.content {
      case Elements(items) =>
        var i :| 0 <= i < |items| && items[i] == v;
        ItemIsSmaller(graph, items, depth + 1, i);
      case Properties(own) =>
        var key :| key in PrintedKeys(own) && Lookup(own, key) == v;
        var i :| 0 <= i < |PrintedKeys(own)| && PrintedKeys(own)[i] == key;
        FieldIsSmaller(graph, own, PrintedKeys(own), depth + 1, i);
      case NotPlain =>
    }
  }

  /** The containers entered on the way to `v`, outermost first. */
  ghost predicate Leads(graph: set<JsObject>, chain: seq<JsObject>, v: Value)
    reads graph
  {
    && (forall i :: 0 <= i < |chain| ==> chain[i] in graph)
    && (forall i :: 0 <= i < |chain| - 1 ==> Enters(chain[i], Ref(chain[i + 1])))
    && (|chain| > 0 ==> Enters(chain[|chain| - 1], v))
  }

  lemma {:induction false} ChainShrinks(graph: set<JsObject>, chain: seq<JsObject>, v: Value, k: nat, depth: nat)
    requires Closed(graph) && Leads(graph, chain, v) && k < |chain| && Unfold(graph, Ref(chain[k]), depth).Some?
    ensures InGraph(graph, v) && Unfold(graph, v, depth + |chain| - k).Some?
    ensures Size(Unfold(graph, v, depth + |chain| - k).value) < Size(Unfold(graph, Ref(chain[k]), depth).value)
    decreases |chain| - k
  {
    hide Unfold, Size, Enters, Closed;
    var next := if k + 1 == |chain| then v else Ref(chain[k + 1]);
    EnteredIsSmaller(graph, chain[k], next, depth);
    if k + 1 < |chain| {
      ChainShrinks(graph, chain, v, k + 1, depth + 1);
    }
  }

  /** An ancestor met again does not unfold. */
  lemma AncestorMetAgain(graph: set<JsObject>, chain: seq<JsObject>, o: JsObject, depth: nat)
    requires Closed(graph) && Leads(graph, chain, Ref(o)) && o in chain && o in graph
    ensures Unfold(graph, Ref(o), depth).None?
  {
    if Unfold(graph, Ref(o), depth).Some? {
      var k :| 0 <= k < |chain| && chain[k] == o;
      ChainShrinks(graph, chain, Ref(o), k, depth);
      UnfoldsHigher(graph, Ref(o), depth + |chain| - k, depth);
    }
  }

  // ---------------------------------------------------------------------------
  // Where a refusal points.
  // ---------------------------------------------------------------------------

  /** `v` itself is what is refused, met below the ancestors `seen`, `depth` containers down. */
  predicate Culprit(v: Value, seen: set<JsObject>, depth: nat, reason: Reason)
    reads if v.Ref? then {v.o} else {}
  {
    match reason
    case NonFiniteNumber => v.Number? && NumberJson(v.n).None?
    case Cyclic => v.Ref? && v.o in seen
    case TooDeep => v.Ref? && v.o !in seen && depth >= MAX_DEPTH
    case UnsupportedValue =>
      v.Undefined? || v.NotJson? || (v.Ref? && v.o !in seen && depth < MAX_DEPTH && v.o.content.NotPlain?)
  }

  /** The part of the path that leads to the culprit. */
  ghost predicate Offends(graph: set<JsObject>, v: Value, way: Path, seen: set<JsObject>, depth: nat, reason: Reason)
    requires Closed(graph) && InGraph(graph, v)
    reads graph
    decreases |way|
  {
    if |way| == 0 then Culprit(v, seen, depth, reason)
    else if !v.Ref? || v.o in seen || depth >= MAX_DEPTH then false
    else
      match (v.o.content, way[0])
      case (Elements(items), At(i)) => i < |items|
          && Offends(graph, items[i], way[1..], seen + {v.o}, depth + 1, reason)
      case (Properties(own), Key(key)) =>
        LookupInGraph(graph, own, key);
        key in PrintedKeys(own) && Offends(graph, Lookup(own, key), way[1..], seen + {v.o}, depth + 1, reason)
      case _ => false
  }

  /** What a refusal says: the path leads from the value to what is refused, with the reason. */
  ghost predicate RightlyRefused(graph: set<JsObject>, v: Value, path: Path, seen: set<JsObject>, depth: nat,
      r: Outcome)
    requires Closed(graph) && InGraph(graph, v)
    reads graph
  {
    r.Refused? ==> path <= r.at && Offends(graph, v, r.at[|path|..], seen, depth, r.reason)
  }

  /** What the text of a value is. */
  ghost predicate RightlyWritten(graph: set<JsObject>, v: Value, depth: nat, r: Outcome)
    requires Closed(graph) && InGraph(graph, v)
    reads graph
  {
    && (r.Canonical? <==> Unfold(graph, v, depth).Some?)
    && (r.Canonical? ==> r.text == Print(Unfold(graph, v, depth).value))
  }

  // ---------------------------------------------------------------------------
  // The recursion of the source.
  // ---------------------------------------------------------------------------

  /** `parts.join(',')`. */
  function Join(parts: seq<Text>): Text {
    if |parts| == 0 then [] else if |parts| == 1 then parts[0] else parts[0] + [COMMA] + Join(parts[1..])
  }

  function ItemTexts(items: seq<Json>): (r: seq<Text>)
    ensures |r| == |items| && forall i :: 0 <= i < |items| ==> r[i] == Print(items[i])
  {
    seq(|items|, i requires 0 <= i < |items| => Print(items[i]))
  }

  function FieldTexts(fields: seq<Field>): (r: seq<Text>)
    ensures |r| == |fields| && forall i :: 0 <= i < |fields| ==> r[i] == PrintField(fields[i])
  {
    seq(|fields|, i requires 0 <= i < |fields| => PrintField(fields[i]))
  }

  lemma {:induction false} JoinedItems(items: seq<Json>)
    ensures Join(ItemTexts(items)) == PrintItems(items)
  {
    hide Print;
    if |items| > 1 {
      assert ItemTexts(items)[1..] == ItemTexts(items[1..]);
      JoinedItems(items[1..]);
    }
  }

  lemma {:induction false} JoinedFields(fields: seq<Field>)
    ensures Join(FieldTexts(fields)) == PrintFields(fields)
  {
    hide PrintField;
    if |fields| > 1 {
      assert FieldTexts(fields)[1..] == FieldTexts(fields[1..]);
      JoinedFields(fields[1..]);
    }
  }

  ghost function Elems(chain: seq<JsObject>): set<JsObject> {
    set o | o in chain
  }

  /** `write`.  `graph` and `chain` are what the proof knows: the objects reachable from the body, and the
      containers being written, of which `seen` is exactly the set.  However it ends, `seen` is as before. */
  method Write(ghost graph: set<JsObject>, ghost chain: seq<JsObject>, value: Value, path: Path, seen: Ancestors,
      depth: nat)
    returns (r: Outcome)
    requires Closed(graph) && InGraph(graph, value)
    requires Leads(graph, chain, value) && |chain| == depth <= MAX_DEPTH && seen.objects == Elems(chain)
    modifies seen
    ensures seen.objects == old(seen.objects)
    ensures RightlyWritten(graph, value, depth, r)
    ensures RightlyRefused(graph, value, path, seen.objects, depth, r)
    decreases MAX_DEPTH - depth, 1
  {
    match value
    case Null => return Canonical(NULL_TEXT);
    case Boolean(b) => return Canonical(if b then TRUE_TEXT else FALSE_TEXT);
    case Number(n) =>
      match n {
        case Finite(text) => return Canonical(text);
        case NegativeZero => return Canonical(ZERO_TEXT);
        case _ => return Refused(NonFiniteNumber, path);
      }
    case Str(s) => return Canonical(Quote(s));
    case Undefined => return Refused(UnsupportedValue, path);
    case NotJson => return Refused(UnsupportedValue, path);
    case Ref(o) =>
      if o in seen.objects {
        AncestorMetAgain(graph, chain, o, depth);
        return Refused(Cyclic, path);
      }
      if depth >= MAX_DEPTH {
        return Refused(TooDeep, path);
      }
      seen.objects := seen.objects + {o};
      match o.content {
        case Elements(items) =>
          r := WriteElements(graph, chain, o, path, seen, depth);
        case Properties(own) =>
          r := WriteProperties(graph, chain, o, path, seen, depth);
        case NotPlain =>
          r := Refused(UnsupportedValue, path);
      }
      seen.objects := seen.objects - {o};
  }

  /** One container further in. */
  lemma ChainGrows(graph: set<JsObject>, chain: seq<JsObject>, o: JsObject, v: Value)
    requires Leads(graph, chain, Ref(o)) && o in graph && Enters(o, v)
    ensures Leads(graph, chain + [o], v) && Elems(chain + [o]) == Elems(chain) + {o}
  {
    hide Enters;
  }

  /** A refusal below an object is a refusal of it, one step longer. */
  lemma RefusedBelow(graph: set<JsObject>, o: JsObject, step: Part, child: Value, path: Path, seen: set<JsObject>,
      depth: nat, r: Outcome)
    requires Closed(graph) && o in graph && o !in seen && depth < MAX_DEPTH && InGraph(graph, child)
    requires match (o.content, step)
             case (Elements(items), At(i)) => i < |items| && items[i] == child
             case (Properties(own), Key(key)) => key in PrintedKeys(own) && Lookup(own, key) == child
             case _ => false
    requires r.Refused? && RightlyRefused(graph, child, path + [step], seen + {o}, depth + 1, r)
    ensures RightlyRefused(graph, Ref(o), path, seen, depth, r)
  {
    hide Closed, Lookup, PrintedKeys, Culprit;
    var way := r.at[|path|..];
    assert way[1..] == r.at[|path + [step]|..];
    assert way[0] == r.at[|path|] == (path + [step])[|path|];
  }

  lemma ItemsUnfoldOn(graph: set<JsObject>, items: seq<Value>, i: nat, depth: nat)
    requires Closed(graph) && (forall v :: v in items ==> InGraph(graph, v)) && i < |items|
    requires UnfoldItems(graph, items[..i], depth).Some?
    ensures var all, last := UnfoldItems(graph, items[..i + 1], depth), Unfold(graph, items[i], depth);
            all == if last.None? then None else Some(UnfoldItems(graph, items[..i], depth).value + [last.value])
    ensures Unfold(graph, items[i], depth).None? ==> UnfoldItems(graph, items, depth).None?
  {
    assert items[..i + 1][..i] == items[..i];
    if UnfoldItems(graph, items, depth).Some? {
      ItemIsSmaller(graph, items, depth, i);
    }
    hide Unfold, Closed;
  }

  method WriteElements(ghost graph: set<JsObject>, ghost chain: seq<JsObject>, o: JsObject, path: Path,
                       seen: Ancestors, depth: nat)
    returns (r: Outcome)
    requires Closed(graph) && o in graph && o !in chain && o.content.Elements?
    requires Leads(graph, chain, Ref(o)) && |chain| == depth < MAX_DEPTH && seen.objects == Elems(chain) + {o}
    modifies seen
    ensures seen.objects == old(seen.objects)
    ensures RightlyWritten(graph, Ref(o), depth, r)
    ensures RightlyRefused(graph, Ref(o), path, Elems(chain), depth, r)
    decreases MAX_DEPTH - depth, 0
  {
    hide Closed, Unfold, UnfoldItems, Leads, Offends, Print, PrintItems, Join, Elems;
    var items := o.content.items;
    ItemsInGraph(graph, o);
    var parts: seq<Text> := [];
    ghost var done: seq<Json> := [];
    NoItems(graph, items, depth + 1);
    for i := 0 to |items|
      invariant seen.objects == Elems(chain) + {o}
      invariant UnfoldItems(graph, items[..i], depth + 1) == Some(done)
      invariant parts == ItemTexts(done)
    {
      ChainGrows(graph, chain, o, items[i]);
      ItemsUnfoldOn(graph, items, i, depth + 1);
      var part := Write(graph, chain + [o], items[i], path + [At(i)], seen, depth + 1);
      if part.Refused? {
        InChain(chain, o);
        RefusedBelow(graph, o, At(i), items[i], path, Elems(chain), depth, part);
        ArrayUnfolds(graph, o, depth);
        return part;
      }
      parts := parts + [part.text];
      done := done + [Unfold(graph, items[i], depth + 1).value];
    }
    assert items[..|items|] == items;
    JoinedItems(done);
    ArrayUnfolds(graph, o, depth);
    PrintedArray(done);
    r := Canonical([OPEN_ARRAY] + Join(parts) + [CLOSE_ARRAY]);
  }

  lemma InChain(chain: seq<JsObject>, o: JsObject)
    ensures o in Elems(chain) <==> o in chain
  {
  }

  lemma ItemsInGraph(graph: set<JsObject>, o: JsObject)
    requires Closed(graph) && o in graph
    ensures o.content.Elements? ==> forall v :: v in o.content.items ==> InGraph(graph, v)
    ensures o.content.Properties? ==> OwnInGraph(graph, o.content.own)
  {
  }

  lemma NoItems(graph: set<JsObject>, items: seq<Value>, depth: nat)
    requires Closed(graph) && forall v :: v in items ==> InGraph(graph, v)
    ensures UnfoldItems(graph, items[..0], depth) == Some([])
  {
  }

  lemma ArrayUnfolds(graph: set<JsObject>, o: JsObject, depth: nat)
    requires Closed(graph) && o in graph && o.content.Elements? && depth < MAX_DEPTH
    requires forall v :: v in o.content.items ==> InGraph(graph, v)
    ensures var all := UnfoldItems(graph, o.content.items, depth + 1);
            Unfold(graph, Ref(o), depth) == if all.None? then None else Some(JArray(all.value))
  {
  }

  lemma PrintedArray(items: seq<Json>)
    ensures Print(JArray(items)) == [OPEN_ARRAY] + PrintItems(items) + [CLOSE_ARRAY]
  {
  }

  lemma FieldsUnfoldOn(graph: set<JsObject>, own: seq<Property>, keys: seq<Text>, i: nat, depth: nat)
    requires Closed(graph) && OwnInGraph(graph, own) && i < |keys|
    ensures InGraph(graph, Lookup(own, keys[i]))
    ensures Lookup(own, keys[i]).Undefined? ==> Defined(own, keys[..i + 1]) == Defined(own, keys[..i])
    ensures !Lookup(own, keys[i]).Undefined? ==> Defined(own, keys[..i + 1]) == Defined(own, keys[..i]) + [keys[i]]
    ensures UnfoldFields(graph, own, Defined(own, keys[..i]), depth).Some? && !Lookup(own, keys[i]).Undefined? ==>
              var all, last := UnfoldFields(graph, own, Defined(own, keys[..i + 1]), depth),
                  Unfold(graph, Lookup(own, keys[i]), depth);
              all == if last.None? then None
                     else Some(UnfoldFields(graph, own, Defined(own, keys[..i]), depth).value
                         + [Field(keys[i], last.value)])
  {
    LookupInGraph(graph, own, keys[i]);
    assert keys[..i + 1][..i] == keys[..i];
    var some := Defined(own, keys[..i]);
    assert (some + [keys[i]])[..|some|] == some;
    hide Unfold, Closed, OwnInGraph;
  }

  /** A defined field that does not unfold leaves the object without a value. */
  lemma FieldMissing(graph: set<JsObject>, o: JsObject, key: Text, depth: nat)
    requires Closed(graph) && o in graph && o.content.Properties? && depth < MAX_DEPTH
    requires key in PrintedKeys(o.content.own) && InGraph(graph, Lookup(o.content.own, key))
    requires Unfold(graph, Lookup(o.content.own, key), depth + 1).None?
    ensures Unfold(graph, Ref(o), depth).None?
  {
    if Unfold(graph, Ref(o), depth).Some? {
      EnteredIsSmaller(graph, o, Lookup(o.content.own, key), depth);
    }
    hide Closed, Unfold;
  }

  method WriteProperties(ghost graph: set<JsObject>, ghost chain: seq<JsObject>, o: JsObject, path: Path,
                         seen: Ancestors, depth: nat)
    returns (r: Outcome)
    requires Closed(graph) && o in graph && o !in chain && o.content.Properties?
    requires Leads(graph, chain, Ref(o)) && |chain| == depth < MAX_DEPTH && seen.objects == Elems(chain) + {o}
    modifies seen
    ensures seen.objects == old(seen.objects)
    ensures RightlyWritten(graph, Ref(o), depth, r)
    ensures RightlyRefused(graph, Ref(o), path, Elems(chain), depth, r)
    decreases MAX_DEPTH - depth, 0
  {
    hide Closed, Unfold, UnfoldFields, Leads, Offends, Print, PrintFields, Join, Elems, OwnInGraph, Sort, Defined,
         Lookup, Quote;
    var own := o.content.own;
    ItemsInGraph(graph, o);
    var keys := Sort(KeysOf(own));
    var parts: seq<Text> := [];
    ghost var done: seq<Field> := [];
    NoFields(graph, own, depth + 1);
    for i := 0 to |keys|
      invariant seen.objects == Elems(chain) + {o}
      invariant UnfoldFields(graph, own, Defined(own, keys[..i]), depth + 1) == Some(done)
      invariant parts == FieldTexts(done)
    {
      var entry := Lookup(own, keys[i]);
      FieldsUnfoldOn(graph, own, keys, i, depth + 1);
      if entry.Undefined? {
        continue;
      }
      assert keys[i] in PrintedKeys(own);
      ChainGrows(graph, chain, o, entry);
      var part := Write(graph, chain + [o], entry, path + [Key(keys[i])], seen, depth + 1);
      if part.Refused? {
        InChain(chain, o);
        RefusedBelow(graph, o, Key(keys[i]), entry, path, Elems(chain), depth, part);
        FieldMissing(graph, o, keys[i], depth);
        return part;
      }
      parts := parts + [Quote(keys[i]) + [COLON] + part.text];
      done := done + [Field(keys[i], Unfold(graph, entry, depth + 1).value)];
    }
    assert keys[..|keys|] == keys;
    JoinedFields(done);
    ObjectUnfolds(graph, o, depth);
    PrintedObject(done);
    r := Canonical([OPEN_OBJECT] + Join(parts) + [CLOSE_OBJECT]);
  }

  lemma NoFields(graph: set<JsObject>, own: seq<Property>, depth: nat)
    requires Closed(graph) && OwnInGraph(graph, own)
    ensures UnfoldFields(graph, own, Defined(own, Sort(KeysOf(own))[..0]), depth) == Some([])
  {
  }

  lemma ObjectUnfolds(graph: set<JsObject>, o: JsObject, depth: nat)
    requires Closed(graph) && o in graph && o.content.Properties? && depth < MAX_DEPTH
             && OwnInGraph(graph, o.content.own)
    ensures var all := UnfoldFields(graph, o.content.own, PrintedKeys(o.content.own), depth + 1);
            Unfold(graph, Ref(o), depth) == if all.None? then None else Some(JObject(all.value))
  {
  }

  lemma PrintedObject(fields: seq<Field>)
    ensures Print(JObject(fields)) == [OPEN_OBJECT] + PrintFields(fields) + [CLOSE_OBJECT]
  {
  }

  // ---------------------------------------------------------------------------
  // What the text means.
  // ---------------------------------------------------------------------------

  /** `canonicalJson`. */
  method CanonicalOf(ghost graph: set<JsObject>, body: Value) returns (r: Outcome)
    requires Closed(graph) && InGraph(graph, body)
    ensures RightlyWritten(graph, body, 0, r)
    ensures RightlyRefused(graph, body, [], {}, 0, r)
  {
    var seen := new Ancestors();
    assert Elems([]) == {};
    r := Write(graph, [], body, [], seen, 0);
  }

  predicate SameNumber(m: Numeric, n: Numeric) {
    m == n || (m in {NegativeZero, Finite(ZERO_TEXT)} && n in {NegativeZero, Finite(ZERO_TEXT)})
  }

  /** Two bodies equal up to the order of properties, undefined properties and the sign of zero. */
  ghost predicate Same(graph: set<JsObject>, a: Value, b: Value, depth: nat)
    reads graph
    decreases MAX_DEPTH - depth, 1
  {
    match (a, b)
    case (Number(m), Number(n)) => SameNumber(m, n)
    case (Ref(o), Ref(p)) =>
      o in graph && p in graph && depth < MAX_DEPTH &&
      (match (o.content, p.content)
       case (Elements(x), Elements(y)) =>
         |x| == |y| && forall i :: 0 <= i < |x| ==> Same(graph, x[i], y[i], depth + 1)
       case (Properties(x), Properties(y)) => SameProperties(graph, x, y, depth)
       case _ => false)
    case _ => a == b
  }

  /** The same properties are defined, with the same values. */
  ghost predicate SameProperties(graph: set<JsObject>, x: seq<Property>, y: seq<Property>, depth: nat)
    requires depth < MAX_DEPTH
    reads graph
    decreases MAX_DEPTH - depth, 0
  {
    && (forall key :: Lookup(x, key).Undefined? <==> Lookup(y, key).Undefined?)
    && forall key :: !Lookup(x, key).Undefined? ==> Same(graph, Lookup(x, key), Lookup(y, key), depth + 1)
  }

  lemma {:induction false} ItemsAt(graph: set<JsObject>, items: seq<Value>, depth: nat, i: nat)
    requires Closed(graph) && (forall v :: v in items ==> InGraph(graph, v)) && i < |items|
    requires UnfoldItems(graph, items, depth).Some?
    ensures Some(UnfoldItems(graph, items, depth).value[i]) == Unfold(graph, items[i], depth)
    decreases |items|
  {
    if i < |items| - 1 {
      ItemsAt(graph, items[..|items| - 1], depth, i);
    }
  }

  lemma {:induction false} FieldsAt(graph: set<JsObject>, own: seq<Property>, keys: seq<Text>, depth: nat, i: nat)
    requires Closed(graph) && OwnInGraph(graph, own) && i < |keys|
    requires UnfoldFields(graph, own, keys, depth).Some?
    ensures InGraph(graph, Lookup(own, keys[i]))
    ensures var f := UnfoldFields(graph, own, keys, depth).value[i];
            f.key == keys[i] && Some(f.value) == Unfold(graph, Lookup(own, keys[i]), depth)
    decreases |keys|
  {
    LookupInGraph(graph, own, keys[i]);
    if i < |keys| - 1 {
      FieldsAt(graph, own, keys[..|keys| - 1], depth, i);
    }
  }

  /** The printed keys are the defined ones, in ascending order. */
  lemma PrintedKeysAscend(own: seq<Property>)
    requires Distinct(KeysOf(own))
    ensures Ascending(PrintedKeys(own))
    ensures var keys := PrintedKeys(own); forall i, j :: 0 <= i < j < |keys| ==> Earlier(keys[i], keys[j])
    ensures forall k :: k in PrintedKeys(own) <==> !Lookup(own, k).Undefined?
  {
    var keys := PrintedKeys(own);
    forall i, j | 0 <= i < j < |keys| && Less(keys[i], keys[j]) ensures Earlier(keys[i], keys[j]) {
      LessIsEarlier(keys[i], keys[j]);
    }
    SortAscends(KeysOf(own));
    DefinedAscends(own, Sort(KeysOf(own)));
    forall k | !Lookup(own, k).Undefined? ensures k in KeysOf(own) {
      LookupHasKey(own, k);
    }
  }

  lemma {:induction false} LookupHasKey(own: seq<Property>, key: Text)
    requires !Lookup(own, key).Undefined?
    ensures key in KeysOf(own)
  {
    if own[0].key == key {
      assert KeysOf(own)[0] == key;
    } else {
      LookupHasKey(own[1..], key);
      var i :| 0 <= i < |own[1..]| && KeysOf(own[1..])[i] == key;
      assert KeysOf(own)[i + 1] == key;
    }
  }

  /** Two bodies unfold to one value exactly when they are the same up to those three. */
  lemma {:induction false} SameIffOneValue(graph: set<JsObject>, a: Value, b: Value, depth: nat)
    requires Closed(graph) && InGraph(graph, a) && InGraph(graph, b)
    requires Unfold(graph, a, depth).Some? && Unfold(graph, b, depth).Some?
    ensures Same(graph, a, b, depth) <==> Unfold(graph, a, depth) == Unfold(graph, b, depth)
    decreases MAX_DEPTH - depth, 1
  {
    hide UnfoldItems, UnfoldFields, PrintedKeys, Lookup, Distinct, SameProperties;
    if a.Ref? && b.Ref? {
      match (a.o.content, b.o.content) {
        case (Elements(x), Elements(y)) => SameItems(graph, x, y, depth);
        case (Properties(x), Properties(y)) => SameFields(graph, x, y, depth);
        case _ =>
      }
    }
  }

  lemma {:induction false} SameItems(graph: set<JsObject>, x: seq<Value>, y: seq<Value>, depth: nat)
    requires Closed(graph) && depth < MAX_DEPTH
    requires (forall v :: v in x ==> InGraph(graph, v)) && forall v :: v in y ==> InGraph(graph, v)
    requires UnfoldItems(graph, x, depth + 1).Some? && UnfoldItems(graph, y, depth + 1).Some?
    ensures (|x| == |y| && forall i :: 0 <= i < |x| ==> Same(graph, x[i], y[i], depth + 1))
       <==> UnfoldItems(graph, x, depth + 1) == UnfoldItems(graph, y, depth + 1)
    decreases MAX_DEPTH - depth, 0
  {
    hide Unfold, UnfoldItems, Same, Closed;
    var s, t := UnfoldItems(graph, x, depth + 1).value, UnfoldItems(graph, y, depth + 1).value;
    if |x| == |y| {
      forall i | 0 <= i < |x| ensures Same(graph, x[i], y[i], depth + 1) <==> s[i] == t[i] {
        ItemsAt(graph, x, depth + 1, i);
        ItemsAt(graph, y, depth + 1, i);
        SameIffOneValue(graph, x[i], y[i], depth + 1);
      }
      if forall i :: 0 <= i < |x| ==> s[i] == t[i] {
        assert s == t;
      }
    }
  }

  lemma FieldKeys(graph: set<JsObject>, own: seq<Property>, keys: seq<Text>, depth: nat)
    requires Closed(graph) && OwnInGraph(graph, own) && UnfoldFields(graph, own, keys, depth).Some?
    ensures forall i :: 0 <= i < |keys| ==> UnfoldFields(graph, own, keys, depth).value[i].key == keys[i]
  {
    forall i | 0 <= i < |keys| ensures UnfoldFields(graph, own, keys, depth).value[i].key == keys[i] {
      FieldsAt(graph, own, keys, depth, i);
    }
  }

  /** One list of fields: one list of keys. */
  lemma SameKeys(graph: set<JsObject>, x: seq<Property>, y: seq<Property>, k: seq<Text>, l: seq<Text>, depth: nat)
    requires Closed(graph) && OwnInGraph(graph, x) && OwnInGraph(graph, y)
    requires UnfoldFields(graph, x, k, depth).Some?
             && UnfoldFields(graph, x, k, depth) == UnfoldFields(graph, y, l, depth)
    ensures k == l
  {
    FieldKeys(graph, x, k, depth);
    FieldKeys(graph, y, l, depth);
    hide UnfoldFields, Closed;
    var s := UnfoldFields(graph, x, k, depth).value;
    assert |k| == |s| == |l|;
    assert forall i :: 0 <= i < |k| ==> k[i] == s[i].key == l[i];
  }

  lemma {:induction false} SameFields(graph: set<JsObject>, x: seq<Property>, y: seq<Property>, depth: nat)
    requires Closed(graph) && depth < MAX_DEPTH && OwnInGraph(graph, x) && OwnInGraph(graph, y)
    requires Distinct(KeysOf(x)) && Distinct(KeysOf(y))
    requires UnfoldFields(graph, x, PrintedKeys(x), depth + 1).Some?
             && UnfoldFields(graph, y, PrintedKeys(y), depth + 1).Some?
    ensures SameProperties(graph, x, y, depth)
       <==> UnfoldFields(graph, x, PrintedKeys(x), depth + 1) == UnfoldFields(graph, y, PrintedKeys(y), depth + 1)
    decreases MAX_DEPTH - depth, 0
  {
    hide Unfold, UnfoldFields, Same, Closed, Lookup, Distinct, OwnInGraph, PrintedKeys;
    PrintedKeysAscend(x);
    PrintedKeysAscend(y);
    var k, l := PrintedKeys(x), PrintedKeys(y);
    var s, t := UnfoldFields(graph, x, k, depth + 1), UnfoldFields(graph, y, l, depth + 1);
    if s == t {
      SameKeys(graph, x, y, k, l, depth + 1);
    }
    if SameProperties(graph, x, y, depth) {
      AscendingIsUnique(k, l);
    }
    hide Ascending;
    if k == l {
      SameFieldsAt(graph, x, y, k, depth);
      if SameProperties(graph, x, y, depth) {
        forall i | 0 <= i < |k| ensures s.value[i] == t.value[i] {
          assert k[i] in k;
        }
        assert s.value == t.value;
      }
    }
  }

  lemma {:induction false} SameFieldsAt(graph: set<JsObject>, x: seq<Property>, y: seq<Property>, keys: seq<Text>,
      depth: nat)
    requires Closed(graph) && depth < MAX_DEPTH && OwnInGraph(graph, x) && OwnInGraph(graph, y)
    requires UnfoldFields(graph, x, keys, depth + 1).Some? && UnfoldFields(graph, y, keys, depth + 1).Some?
    ensures forall i :: 0 <= i < |keys| ==>
              (Same(graph, Lookup(x, keys[i]), Lookup(y, keys[i]), depth + 1)
               <==> UnfoldFields(graph, x, keys, depth + 1).value[i]
                    == UnfoldFields(graph, y, keys, depth + 1).value[i])
    decreases MAX_DEPTH - depth, 0, 0
  {
    hide Unfold, UnfoldFields, Same, Closed, Lookup, OwnInGraph;
    forall i | 0 <= i < |keys|
      ensures Same(graph, Lookup(x, keys[i]), Lookup(y, keys[i]), depth + 1)
         <==> UnfoldFields(graph, x, keys, depth + 1).value[i] == UnfoldFields(graph, y, keys, depth + 1).value[i]
    {
      FieldsAt(graph, x, keys, depth + 1, i);
      FieldsAt(graph, y, keys, depth + 1, i);
      SameIffOneValue(graph, Lookup(x, keys[i]), Lookup(y, keys[i]), depth + 1);
    }
  }

  /** Two bodies have one text exactly when they are the same up to the order of properties, undefined
      properties and the sign of zero. */
  lemma OneTextIffSame(graph: set<JsObject>, a: Value, b: Value, r: Outcome, s: Outcome)
    requires Closed(graph) && InGraph(graph, a) && InGraph(graph, b)
    requires RightlyWritten(graph, a, 0, r) && r.Canonical?
    requires RightlyWritten(graph, b, 0, s) && s.Canonical?
    ensures r.text == s.text <==> Same(graph, a, b, 0)
  {
    SameIffOneValue(graph, a, b, 0);
    PrintIsInjective(Unfold(graph, a, 0).value, Unfold(graph, b, 0).value);
    hide Unfold, Same, Print, Closed;
  }

  /** A parser recovers the value of a body from its text. */
  lemma TextParsesBack(graph: set<JsObject>, body: Value, r: Outcome)
    requires Closed(graph) && InGraph(graph, body) && RightlyWritten(graph, body, 0, r) && r.Canonical?
    ensures ParseValue(r.text) == Some(Parsed(Unfold(graph, body, 0).value, []))
  {
    ParsePrinted(Unfold(graph, body, 0).value, []);
    hide Unfold, Print, ParseValue, Closed;
    assert r.text + [] == r.text;
  }

  function Nesting(j: Json): nat {
    match j
    case JArray(items) => 1 + ItemsNesting(items)
    case JObject(fields) => 1 + FieldsNesting(fields)
    case _ => 0
  }

  function Max(a: nat, b: nat): nat {
    if a < b then b else a
  }

  function ItemsNesting(items: seq<Json>): nat {
    if |items| == 0 then 0 else Max(ItemsNesting(items[..|items| - 1]), Nesting(items[|items| - 1]))
  }

  function FieldsNesting(fields: seq<Field>): nat {
    if |fields| == 0 then 0 else Max(FieldsNesting(fields[..|fields| - 1]), Nesting(fields[|fields| - 1].value))
  }

  /** Only bodies at most `MAX_DEPTH` containers deep have a text. */
  lemma {:induction false} TextIsNotTooDeep(graph: set<JsObject>, v: Value, depth: nat)
    requires Closed(graph) && InGraph(graph, v) && depth <= MAX_DEPTH && Unfold(graph, v, depth).Some?
    ensures depth + Nesting(Unfold(graph, v, depth).value) <= MAX_DEPTH
    decreases MAX_DEPTH - depth, 1, 0
  {
    hide UnfoldItems, UnfoldFields, PrintedKeys, Distinct, ItemsNesting, FieldsNesting;
    if v.Ref? && v.o.content.Elements? {
      ItemsAreNotTooDeep(graph, v.o.content.items, depth + 1);
    } else if v.Ref? && v.o.content.Properties? {
      FieldsAreNotTooDeep(graph, v.o.content.own, PrintedKeys(v.o.content.own), depth + 1);
    }
  }

  lemma {:induction false} ItemsAreNotTooDeep(graph: set<JsObject>, items: seq<Value>, depth: nat)
    requires Closed(graph) && (forall v :: v in items ==> InGraph(graph, v)) && depth <= MAX_DEPTH
    requires UnfoldItems(graph, items, depth).Some?
    ensures depth + ItemsNesting(UnfoldItems(graph, items, depth).value) <= MAX_DEPTH
    decreases MAX_DEPTH - depth, 2, |items|
  {
    if |items| > 0 {
      var n := |items| - 1;
      var all := UnfoldItems(graph, items, depth).value;
      assert all[..n] == UnfoldItems(graph, items[..n], depth).value;
      ItemsAreNotTooDeep(graph, items[..n], depth);
      TextIsNotTooDeep(graph, items[n], depth);
    }
  }

  lemma {:induction false} FieldsAreNotTooDeep(graph: set<JsObject>, own: seq<Property>, keys: seq<Text>, depth: nat)
    requires Closed(graph) && OwnInGraph(graph, own) && depth <= MAX_DEPTH
    requires UnfoldFields(graph, own, keys, depth).Some?
    ensures depth + FieldsNesting(UnfoldFields(graph, own, keys, depth).value) <= MAX_DEPTH
    decreases MAX_DEPTH - depth, 2, |keys|
  {
    if |keys| > 0 {
      var n := |keys| - 1;
      var all := UnfoldFields(graph, own, keys, depth).value;
      assert all[..n] == UnfoldFields(graph, own, keys[..n], depth).value;
      LookupInGraph(graph, own, keys[n]);
      FieldsAreNotTooDeep(graph, own, keys[..n], depth);
      TextIsNotTooDeep(graph, Lookup(own, keys[n]), depth);
    }
  }

  /** A refusal as cyclic points to an object met again below itself, on the way from `v`. */
  lemma {:induction false} CyclicIsACycle(graph: set<JsObject>, chain: seq<JsObject>, v: Value, way: Path, depth: nat)
    returns (round: seq<JsObject>, o: JsObject)
    requires Closed(graph) && InGraph(graph, v) && Leads(graph, chain, v)
    requires Offends(graph, v, way, Elems(chain), depth, Cyclic)
    ensures Leads(graph, round, Ref(o)) && o in round
    ensures chain <= round && (|way| > 0 ==> v.Ref? && chain + [v.o] <= round)
    decreases |way|
  {
    hide Closed, Lookup, Unfold, Leads;
    o := v.o;
    if |way| == 0 {
      round := chain;
    } else {
      var next := match (o.content, way[0])
                  case (Elements(items), At(i)) => items[i]
                  case (Properties(own), Key(key)) => Lookup(own, key);
      EnteredIsInGraph(graph, o, next);
      ChainGrows(graph, chain, o, next);
      round, o := CyclicIsACycle(graph, chain + [o], next, way[1..], depth + 1);
    }
  }

  /** A body refused as cyclic leads, container by container, to an object and back to it: sharing alone is
      never refused so. */
  lemma CyclicBodyIsCyclic(graph: set<JsObject>, body: Value, r: Outcome) returns (round: seq<JsObject>, o: JsObject)
    requires Closed(graph) && InGraph(graph, body)
    requires RightlyRefused(graph, body, [], {}, 0, r) && r.Refused? && r.reason.Cyclic?
    ensures Leads(graph, round, Ref(o)) && o in round
    ensures |round| > 0 && body == Ref(round[0])
  {
    hide Closed, Leads;
    NothingLeads(graph, body);
    round, o := CyclicIsACycle(graph, [], body, r.at, 0);
    assert [] + [body.o] <= round;
  }

  lemma NothingLeads(graph: set<JsObject>, v: Value)
    ensures Leads(graph, [], v) && Elems([]) == {}
  {
  }

  /** A body with a text is acyclic: nothing it leads to is one of the containers on the way. */
  lemma TextIsAcyclic(graph: set<JsObject>, chain: seq<JsObject>, v: Value, i: nat, r: Outcome)
    requires Closed(graph) && Leads(graph, chain, v) && i < |chain|
    requires RightlyWritten(graph, Ref(chain[0]), 0, r) && r.Canonical?
    ensures v != Ref(chain[i])
  {
    hide Closed, Unfold, Enters;
    ChainShrinks(graph, chain, v, 0, 0);
    if v == Ref(chain[i]) {
      AncestorMetAgain(graph, chain, chain[i], |chain|);
    }
  }
}
