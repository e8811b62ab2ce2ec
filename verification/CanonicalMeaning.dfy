/** What a canonical text says of its body, and what a refusal points to, told without the recursion that made them. */
module CanonicalMeaning {
  import opened Common
  import opened CanonicalText
  import opened StrictText
  import opened CanonicalJson

  /** The body has a property with this key and this value. */
  predicate Owns(own: seq<Property>, p: int, key: Text) {
    0 <= p < |own| && own[p].key == key && !own[p].value.Undefined?
  }

  /** `j` is the JSON value of `v`: the same scalars, items in their order, and the defined properties ascending. */
  ghost predicate Denotes(v: Value, j: Json)
    reads *
    decreases j
  {
    match j
    case JNull => v.Null?
    case JBool(b) => v == Boolean(b)
    case JNumber(text) => v == Number(Finite(text)) || (v == Number(NegativeZero) && text == Units("0"))
    case JString(s) => v == Str(s)
    case JArray(items) =>
      v.Ref? && v.o.content.Elements? && |v.o.content.items| == |items|
      && forall i :: 0 <= i < |items| ==> Denotes(v.o.content.items[i], items[i])
    case JObject(fields) =>
      v.Ref? && v.o.content.Properties?
      && (forall i, k :: 0 <= i < k < |fields| ==> Earlier(fields[i].key, fields[k].key))
      && (forall i :: 0 <= i < |fields| ==> IsProperty(v.o.content.own, fields[i]))
      && forall p :: 0 <= p < |v.o.content.own| && !v.o.content.own[p].value.Undefined? ==>
           HasKey(fields, v.o.content.own[p].key)
  }

  /** One of the properties has this key and this value. */
  ghost predicate IsProperty(own: seq<Property>, f: Field)
    reads *
    decreases f
  {
    exists p :: Owns(own, p, f.key) && Denotes(own[p].value, f.value)
  }

  predicate HasKey(fields: seq<Field>, key: Text) {
    exists i :: 0 <= i < |fields| && fields[i].key == key
  }

  lemma {:induction false} LookupOwns(own: seq<Property>, key: Text)
    requires !Lookup(own, key).Undefined?
    ensures exists p :: Owns(own, p, key) && own[p].value == Lookup(own, key)
  {
    if own[0].key == key {
      assert Owns(own, 0, key);
    } else {
      LookupOwns(own[1..], key);
      var p :| Owns(own[1..], p, key) && own[1..][p].value == Lookup(own[1..], key);
      assert Owns(own, p + 1, key);
    }
  }

  lemma {:induction false} OwnsLookup(own: seq<Property>, p: nat)
    requires Distinct(KeysOf(own)) && p < |own|
    ensures Lookup(own, own[p].key) == own[p].value
  {
    if p > 0 {
      assert KeysOf(own)[0] != KeysOf(own)[p];
      assert forall i :: 0 <= i < |own| - 1 ==> KeysOf(own[1..])[i] == KeysOf(own)[i + 1];
      OwnsLookup(own[1..], p - 1);
    }
  }

  /** The value that a body unfolds to is what it says. */
  lemma {:induction false} UnfoldDenotes(graph: set<JsObject>, v: Value, depth: nat)
    requires Closed(graph) && InGraph(graph, v) && Unfold(graph, v, depth).Some?
    ensures Denotes(v, Unfold(graph, v, depth).value)
    decreases MAX_DEPTH - depth
  {
    hide UnfoldItems, UnfoldFields, PrintedKeys, Lookup, Distinct, Earlier;
    if v.Ref? && v.o.content.Elements? {
      var items := v.o.content.items;
      forall i | 0 <= i < |items| ensures Denotes(items[i], UnfoldItems(graph, items, depth + 1).value[i]) {
        ItemsAt(graph, items, depth + 1, i);
        UnfoldDenotes(graph, items[i], depth + 1);
      }
      hide Closed;
    } else if v.Ref? && v.o.content.Properties? {
      FieldsDenote(graph, v.o.content.own, depth);
      var fields := UnfoldFields(graph, v.o.content.own, PrintedKeys(v.o.content.own), depth + 1).value;
      assert Unfold(graph, v, depth) == Some(JObject(fields));
      hide Closed, Unfold, HasKey, Owns, IsProperty;
      assert Denotes(v, JObject(fields));
    } else {
      assert ZERO_TEXT == Units("0");
    }
  }

  lemma {:induction false} FieldsDenote(graph: set<JsObject>, own: seq<Property>, depth: nat)
    requires Closed(graph) && OwnInGraph(graph, own) && Distinct(KeysOf(own)) && depth < MAX_DEPTH
    requires UnfoldFields(graph, own, PrintedKeys(own), depth + 1).Some?
    ensures var fields := UnfoldFields(graph, own, PrintedKeys(own), depth + 1).value;
            && (forall i, k :: 0 <= i < k < |fields| ==> Earlier(fields[i].key, fields[k].key))
            && (forall i :: 0 <= i < |fields| ==> IsProperty(own, fields[i]))
            && forall p :: 0 <= p < |own| && !own[p].value.Undefined? ==> HasKey(fields, own[p].key)
    decreases MAX_DEPTH - depth, 0
  {
    hide Unfold, UnfoldFields, PrintedKeys, Lookup, Distinct, Earlier, Closed, Denotes;
    PrintedKeysAscend(own);
    var keys := PrintedKeys(own);
    var fields := UnfoldFields(graph, own, keys, depth + 1).value;
    forall i | 0 <= i < |fields| ensures fields[i].key == keys[i] {
      FieldsAt(graph, own, keys, depth + 1, i);
    }
    forall i | 0 <= i < |fields| ensures IsProperty(own, fields[i]) {
      FieldsAt(graph, own, keys, depth + 1, i);
      UnfoldDenotes(graph, Lookup(own, keys[i]), depth + 1);
      assert keys[i] in keys;
      LookupOwns(own, keys[i]);
      var p :| Owns(own, p, keys[i]) && own[p].value == Lookup(own, keys[i]);
      assert Owns(own, p, fields[i].key) && Denotes(own[p].value, fields[i].value);
    }
    forall p | 0 <= p < |own| && !own[p].value.Undefined? ensures HasKey(fields, own[p].key) {
      OwnsLookup(own, p);
      var i :| 0 <= i < |keys| && keys[i] == own[p].key;
      assert fields[i].key == own[p].key;
    }
  }

  /** A text is the one strict spelling of what the body says: a parser reads that value back, no unit of it is
      a control character, and every half of a pair in it is in a pair. */
  lemma TextSays(graph: set<JsObject>, body: Value, r: Outcome)
    requires Closed(graph) && InGraph(graph, body) && RightlyWritten(graph, body, 0, r) && r.Canonical?
    ensures WellFormed(r.text)
    ensures exists j :: ParseValue(r.text) == Some(Parsed(j, [])) && Denotes(body, j)
  {
    hide Unfold, Print, ParseValue, Closed, Denotes, WellFormed;
    TextParsesBack(graph, body, r);
    UnfoldDenotes(graph, body, 0);
    PrintedIsWellFormed(Unfold(graph, body, 0).value);
  }

  // ---------------------------------------------------------------------------
  // Refusals.
  // ---------------------------------------------------------------------------

  /** What stands at the end of a path. */
  function ValueAt(v: Value, way: Path): Option<Value>
    reads *
    decreases |way|
  {
    if |way| == 0 then Some(v)
    else if !v.Ref? then None
    else
      match (v.o.content, way[0])
      case (Elements(items), At(i)) => if i < |items| then ValueAt(items[i], way[1..]) else None
      case (Properties(own), Key(key)) => ValueAt(Lookup(own, key), way[1..])
      case _ => None
  }

  /** The reason fits what stands there: a number that is none, a value that is not JSON, a container that is
      one of those on the way to it, or a container below as many as there may be. */
  ghost predicate Fits(v: Value, way: Path, seen: set<JsObject>, depth: nat, reason: Reason)
    reads *
  {
    ValueAt(v, way).Some? &&
    var c := ValueAt(v, way).value;
    match reason
    case NonFiniteNumber => c == Number(NaN) || c == Number(Infinite(true)) || c == Number(Infinite(false))
    case UnsupportedValue => c.Undefined? || c.NotJson? || (c.Ref? && c.o.content.NotPlain?)
    case Cyclic => c.Ref? && (c.o in seen || exists n: nat :: n < |way| && ValueAt(v, way[..n]) == Some(c))
    case TooDeep => c.Ref? && depth + |way| >= 100 && (|way| > 0 ==> depth + |way| == 100)
  }

  lemma {:induction false} OffendsFits(graph: set<JsObject>, v: Value, way: Path, seen: set<JsObject>, depth: nat,
      reason: Reason)
    requires Closed(graph) && InGraph(graph, v) && Offends(graph, v, way, seen, depth, reason)
    ensures Fits(v, way, seen, depth, reason)
    decreases |way|
  {
    if |way| > 0 {
      hide Closed, Fits;
      NextOffends(graph, v, way, seen, depth, reason);
      var next := ValueAt(v, way[..1]).value;
      OffendsFits(graph, next, way[1..], seen + {v.o}, depth + 1, reason);
      FitsAbove(v, next, way, seen, depth, reason);
    }
  }

  lemma NextOffends(graph: set<JsObject>, v: Value, way: Path, seen: set<JsObject>, depth: nat, reason: Reason)
    requires Closed(graph) && InGraph(graph, v) && Offends(graph, v, way, seen, depth, reason) && |way| > 0
    ensures v.Ref? && depth < MAX_DEPTH && ValueAt(v, way[..1]).Some?
    ensures var next := ValueAt(v, way[..1]).value;
            && InGraph(graph, next) && Offends(graph, next, way[1..], seen + {v.o}, depth + 1, reason)
            && ValueAt(v, way) == ValueAt(next, way[1..])
  {
    hide Culprit, PrintedKeys;
    assert way[..1][0] == way[0] && way[..1][1..] == [];
    match (v.o.content, way[0])
    case (Properties(own), Key(key)) => LookupInGraph(graph, own, key);
    case _ =>
  }

  lemma FitsAbove(v: Value, next: Value, way: Path, seen: set<JsObject>, depth: nat, reason: Reason)
    requires |way| > 0 && v.Ref? && depth < MAX_DEPTH && ValueAt(v, way[..1]) == Some(next)
    requires ValueAt(v, way) == ValueAt(next, way[1..])
    requires Fits(next, way[1..], seen + {v.o}, depth + 1, reason)
    ensures Fits(v, way, seen, depth, reason)
  {
    if reason.Cyclic? {
      var c := ValueAt(v, way).value;
      if c.o == v.o {
        assert way[..0] == [];
        assert ValueAt(v, way[..0]) == Some(c);
      } else if c.o !in seen {
        var n: nat :| n < |way[1..]| && ValueAt(next, way[1..][..n]) == Some(c);
        OneFurther(v, next, way, n);
      }
    }
  }

  lemma OneFurther(v: Value, next: Value, way: Path, n: nat)
    requires |way| > 0 && n < |way[1..]| && v.Ref? && ValueAt(v, way[..1]) == Some(next)
    ensures ValueAt(v, way[..n + 1]) == ValueAt(next, way[1..][..n])
  {
    assert way[..1][0] == way[0] && way[..1][1..] == [];
    assert way[..n + 1][0] == way[0] && way[..n + 1][1..] == way[1..][..n];
  }

  /** A refusal names a path in the body and what is wrong at its end. */
  lemma RefusalTold(graph: set<JsObject>, body: Value, r: Outcome)
    requires Closed(graph) && InGraph(graph, body) && RightlyRefused(graph, body, [], {}, 0, r) && r.Refused?
    ensures Fits(body, r.at, {}, 0, r.reason)
  {
    assert r.at[0..] == r.at;
    OffendsFits(graph, body, r.at, {}, 0, r.reason);
  }
}
