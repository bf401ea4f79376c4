/** src/config/kdl_support.rs: a KDL document read as JSON. */
module KdlModel {
  import opened Prelude
  import opened JsonModel

  /** A float is finite or not; only finite ones have a JSON number. */
  datatype KdlValue = KString(s: string) | KInt(i: int) | KFloat(f: Option<real>) | KBool(b: bool) | KNull

  datatype Entry = Entry(name: Option<string>, value: KdlValue)

  /** A node without a block and a node with an empty block are read alike; both have no children here. */
  datatype Node = Node(name: string, entries: seq<Entry>, children: seq<Node>)

  function ScalarValue(k: KdlValue): Value {
    match k
    case KString(s) => Str(s)
    case KInt(i) => Int(i)
    case KFloat(f) => if f.Some? then Float(f.value) else Null
    case KBool(b) => Bool(b)
    case KNull => Null
  }

  function Args(entries: seq<Entry>): seq<Value> {
    if entries == [] then [] else
    var e := entries[|entries| - 1];
    Args(entries[..|entries| - 1]) + if e.name.None? then [ScalarValue(e.value)] else []
  }

  function Props(entries: seq<Entry>): seq<(string, Value)> {
    if entries == [] then [] else
    var e := entries[|entries| - 1];
    Props(entries[..|entries| - 1]) + if e.name.Some? then [(e.name.value, ScalarValue(e.value))] else []
  }

  type Fields = map<string, Value>

  /** A repeated key collects its values in an array. */
  function Accumulate(obj: Fields, key: string, value: Value): Fields {
    if key !in obj then obj[key := value]
    else if obj[key].Array? then obj[key := Array(obj[key].items + [value])]
    else obj[key := Array([obj[key], value])]
  }

  function WithProps(obj: Fields, props: seq<(string, Value)>): Fields {
    if props == [] then obj
    else WithProps(obj, props[..|props| - 1])[props[|props| - 1].0 := props[|props| - 1].1]
  }

  function WithArgs(obj: Fields, args: seq<Value>): Fields {
    if args == [] then obj else Accumulate(WithArgs(obj, args[..|args| - 1]), "_", args[|args| - 1])
  }

  predicate HasChildren(node: Node) {
    node.children != []
  }

  predicate AllDash(nodes: seq<Node>) {
    forall n :: n in nodes ==> n.name == "-"
  }

  function FieldsOf(nodes: seq<Node>): Fields
    decreases nodes, 0
  {
    if nodes == [] then map[]
    else
      var last := nodes[|nodes| - 1];
      Accumulate(FieldsOf(nodes[..|nodes| - 1]), last.name, ValueOf(last))
  }

  function ItemsOf(nodes: seq<Node>): seq<Value>
    decreases nodes, 0
  {
    if nodes == [] then [] else ItemsOf(nodes[..|nodes| - 1]) + [ItemOf(nodes[|nodes| - 1])]
  }

  function ValueOf(node: Node): Value
    decreases node, 1
  {
    var args, props := Args(node.entries), Props(node.entries);
    if HasChildren(node) then
      if AllDash(node.children) then Array(ItemsOf(node.children))
      else Object(WithProps(FieldsOf(node.children), props))
    else if |args| == 1 && props == [] then args[0]
    else if |args| > 1 && props == [] then Array(args)
    else if props != [] then Object(WithArgs(WithProps(map[], props), args))
    else Null
  }

  /** The value of a `-` node inside an array. */
  function ItemOf(node: Node): Value
    decreases node, 1
  {
    var args, props := Args(node.entries), Props(node.entries);
    if HasChildren(node) then Object(WithProps(FieldsOf(node.children), props))
    else if |args| == 1 && props == [] then args[0]
    else if props != [] then Object(WithProps(map[], props))
    else if |args| > 1 then Array(args)
    else Null
  }

  // ------------------------------------------------------------------ the loops of the source

  method NodesToJson(nodes: seq<Node>) returns (v: Value)
    ensures v == Object(FieldsOf(nodes))
    decreases nodes, 0
  {
    var obj: Fields := map[];
    var i := 0;
    while i < |nodes|
      invariant 0 <= i <= |nodes| && obj == FieldsOf(nodes[..i])
    {
      var key := nodes[i].name;
      var value := NodeToJson(nodes[i]);
      assert nodes[..i + 1][..i] == nodes[..i];
      if key in obj {
        if obj[key].Array? {
          obj := obj[key := Array(obj[key].items + [value])];
        } else {
          obj := obj[key := Array([obj[key], value])];
        }
      } else {
        obj := obj[key := value];
      }
      i := i + 1;
    }
    assert nodes[..i] == nodes;
    v := Object(obj);
  }

  method InsertProps(obj: Fields, props: seq<(string, Value)>) returns (r: Fields)
    ensures r == WithProps(obj, props)
  {
    r := obj;
    for i := 0 to |props|
      invariant r == WithProps(obj, props[..i])
    {
      assert props[..i + 1][..i] == props[..i];
      r := r[props[i].0 := props[i].1];
    }
    assert props[..|props|] == props;
  }

  method InsertArgs(obj: Fields, args: seq<Value>) returns (r: Fields)
    ensures r == WithArgs(obj, args)
  {
    r := obj;
    for i := 0 to |args|
      invariant r == WithArgs(obj, args[..i])
    {
      assert args[..i + 1][..i] == args[..i];
      r := Accumulate(r, "_", args[i]);
    }
    assert args[..|args|] == args;
  }

  method NodeToJson(node: Node) returns (v: Value)
    ensures v == ValueOf(node)
    decreases node, 1
  {
    var args, props := Args(node.entries), Props(node.entries);
    if HasChildren(node) {
      var children := node.children;
      if AllDash(children) {
        var items: seq<Value> := [];
        var i := 0;
        while i < |children|
          invariant 0 <= i <= |children| && items == ItemsOf(children[..i])
        {
          var item := DashNodeToJson(children[i]);
          assert children[..i + 1][..i] == children[..i];
          items := items + [item];
          i := i + 1;
        }
        assert children[..i] == children;
        return Array(items);
      }
      var inner := NodesToJson(children);
      var obj := InsertProps(inner.fields, props);
      return Object(obj);
    }
    if |args| == 1 && props == [] { return args[0]; }
    if |args| > 1 && props == [] { return Array(args); }
    if props != [] {
      var obj := InsertProps(map[], props);
      obj := InsertArgs(obj, args);
      return Object(obj);
    }
    v := Null;
  }

  method DashNodeToJson(node: Node) returns (v: Value)
    ensures v == ItemOf(node)
    decreases node, 1
  {
    var args, props := Args(node.entries), Props(node.entries);
    if HasChildren(node) {
      var inner := NodesToJson(node.children);
      var obj := InsertProps(inner.fields, props);
      return Object(obj);
    }
    if |args| == 1 && props == [] { return args[0]; }
    if props != [] {
      var obj := InsertProps(map[], props);
      return Object(obj);
    }
    if |args| > 1 { return Array(args); }
    v := Null;
  }

  // ------------------------------------------------------------------ the natural writing of JSON

  predicate Scalar(v: Value) { !v.Array? && !v.Object? }

  /** The entries are arguments that read as these values. */
  ghost predicate ArgsRead(entries: seq<Entry>, values: seq<Value>) {
    && |entries| == |values|
    && forall i :: 0 <= i < |entries| ==> entries[i].name.None? && ScalarValue(entries[i].value) == values[i]
  }

  /** The node is written for the value: an argument, several arguments, a block of fields or a block of `-` items. */
  ghost predicate WrittenAs(v: Value, node: Node)
    decreases node, 1
  {
    if Scalar(v) then ArgsRead(node.entries, [v]) && !HasChildren(node)
    else if !HasChildren(node) then v.Array? && |v.items| > 1 && ArgsRead(node.entries, v.items)
    else
      && node.entries == []
      && if v.Object? then v.fields.Keys != {"-"} && FieldsWrittenAs(v.fields, node.children)
         else ItemsWrittenAs(v.items, node.children)
  }

  ghost predicate ItemWrittenAs(v: Value, node: Node)
    decreases node, 1
  {
    && node.name == "-"
    && if Scalar(v) then ArgsRead(node.entries, [v]) && !HasChildren(node)
       else if v.Array? then !HasChildren(node) && |v.items| > 1 && ArgsRead(node.entries, v.items)
       else HasChildren(node) && node.entries == [] && FieldsWrittenAs(v.fields, node.children)
  }

  /** One node for each field, in any order. */
  ghost predicate FieldsWrittenAs(fields: Fields, nodes: seq<Node>)
    decreases nodes, 0
  {
    if nodes == [] then fields == map[]
    else
      var last := nodes[|nodes| - 1];
      && last.name in fields && WrittenAs(fields[last.name], last)
      && FieldsWrittenAs(fields - {last.name}, nodes[..|nodes| - 1])
  }

  ghost predicate ItemsWrittenAs(items: seq<Value>, nodes: seq<Node>)
    decreases nodes, 0
  {
    if nodes == [] then items == []
    else
      && items != [] && ItemWrittenAs(items[|items| - 1], nodes[|nodes| - 1])
      && ItemsWrittenAs(items[..|items| - 1], nodes[..|nodes| - 1])
  }

  lemma {:induction false} ArgsAreRead(entries: seq<Entry>, values: seq<Value>)
    requires ArgsRead(entries, values)
    ensures Args(entries) == values && Props(entries) == []
    decreases |entries|
  {
    if entries != [] {
      ArgsAreRead(entries[..|entries| - 1], values[..|values| - 1]);
      assert values == values[..|values| - 1] + [values[|values| - 1]];
    }
  }

  lemma {:induction false} NamesOfFields(fields: Fields, nodes: seq<Node>)
    requires FieldsWrittenAs(fields, nodes)
    ensures forall n :: n in nodes ==> n.name in fields
    ensures forall k :: k in fields ==> exists i :: 0 <= i < |nodes| && nodes[i].name == k
    decreases |nodes|
  {
    if nodes != [] {
      var n := |nodes| - 1;
      NamesOfFields(fields - {nodes[n].name}, nodes[..n]);
      forall k | k in fields ensures exists i :: 0 <= i < |nodes| && nodes[i].name == k {
        if k != nodes[n].name {
          var init := nodes[..n];
          assert k in fields - {nodes[n].name};
          var i :| 0 <= i < |init| && init[i].name == k;
          assert nodes[i].name == k;
        }
      }
    }
  }

  lemma {:induction false} ItemsAreDashes(items: seq<Value>, nodes: seq<Node>)
    requires ItemsWrittenAs(items, nodes)
    ensures AllDash(nodes) && |nodes| == |items|
    decreases |nodes|
  {
    if nodes != [] {
      ItemsAreDashes(items[..|items| - 1], nodes[..|nodes| - 1]);
    }
  }

  /** Reading inverts writing: whatever the order of its fields, a written object is read back exactly. */
  lemma {:induction false} FieldsRoundTrip(fields: Fields, nodes: seq<Node>)
    requires FieldsWrittenAs(fields, nodes)
    ensures FieldsOf(nodes) == fields
    decreases nodes, 0
  {
    if nodes != [] {
      var n := |nodes| - 1;
      FieldsRoundTrip(fields - {nodes[n].name}, nodes[..n]);
      ValueRoundTrip(fields[nodes[n].name], nodes[n]);
      assert (fields - {nodes[n].name})[nodes[n].name := fields[nodes[n].name]] == fields;
    }
  }

  lemma {:induction false} ItemsRoundTrip(items: seq<Value>, nodes: seq<Node>)
    requires ItemsWrittenAs(items, nodes)
    ensures ItemsOf(nodes) == items
    decreases nodes, 0
  {
    if nodes != [] {
      ItemsRoundTrip(items[..|items| - 1], nodes[..|nodes| - 1]);
      ItemRoundTrip(items[|items| - 1], nodes[|nodes| - 1]);
    }
  }

  lemma {:induction false} ValueRoundTrip(v: Value, node: Node)
    requires WrittenAs(v, node)
    ensures ValueOf(node) == v
    decreases node, 1
  {
    if Scalar(v) {
      ArgsAreRead(node.entries, [v]);
    } else if !HasChildren(node) {
      ArgsAreRead(node.entries, v.items);
    } else if v.Object? {
      OnlyDashFields(v.fields, node.children);
      FieldsRoundTrip(v.fields, node.children);
    } else {
      ItemsAreDashes(v.items, node.children);
      ItemsRoundTrip(v.items, node.children);
    }
  }

  lemma OnlyDashFields(fields: Fields, nodes: seq<Node>)
    requires FieldsWrittenAs(fields, nodes) && nodes != []
    ensures AllDash(nodes) ==> fields.Keys == {"-"}
  {
    NamesOfFields(fields, nodes);
    assert nodes[0] in nodes;
  }

  lemma {:induction false} ItemRoundTrip(v: Value, node: Node)
    requires ItemWrittenAs(v, node)
    ensures ItemOf(node) == v
    decreases node, 1
  {
    if Scalar(v) {
      ArgsAreRead(node.entries, [v]);
    } else if v.Array? {
      ArgsAreRead(node.entries, v.items);
    } else {
      FieldsRoundTrip(v.fields, node.children);
    }
  }

  // ------------------------------------------------------------------ which JSON can be written

  /** The JSON values the natural writing covers. */
  ghost predicate Writable(v: Value) {
    if v.Object? then
      v.fields != map[] && v.fields.Keys != {"-"} && forall k :: k in v.fields ==> Writable(v.fields[k])
    else if v.Array? then
      v.items != [] && forall i :: 0 <= i < |v.items| ==> ItemWritable(v.items[i])
    else true
  }

  ghost predicate ItemWritable(v: Value) {
    if v.Object? then v.fields != map[] && forall k :: k in v.fields ==> Writable(v.fields[k])
    else !v.Array?
  }

  function Argument(v: Value): Entry
    requires Scalar(v)
  {
    Entry(None, match v
                case Null => KNull
                case Bool(b) => KBool(b)
                case Int(i) => KInt(i)
                case Float(r) => KFloat(Some(r))
                case Str(s) => KString(s))
  }

  /** Every JSON tree of non-empty objects and non-empty arrays of scalars or objects is some document's reading. */
  lemma {:induction false} FieldsCanBeRead(fields: Fields) returns (nodes: seq<Node>)
    requires forall k :: k in fields ==> Writable(fields[k])
    ensures FieldsOf(nodes) == fields
  {
    nodes := FieldsCanBeWritten(fields, Object(fields));
    FieldsRoundTrip(fields, nodes);
  }

  lemma {:induction false} FieldsCanBeWritten(fields: Fields, whole: Value) returns (nodes: seq<Node>)
    requires whole.Object? && fields.Items <= whole.fields.Items
    requires forall k :: k in fields ==> Writable(fields[k])
    ensures FieldsWrittenAs(fields, nodes) && (nodes == [] <==> fields == map[])
    decreases whole, 0, |fields|
  {
    if fields == map[] {
      nodes := [];
    } else {
      var key :| key in fields;
      assert (key, fields[key]) in fields.Items;
      assert (fields - {key}).Keys == fields.Keys - {key};
      assert |fields.Keys - {key}| < |fields.Keys|;
      var rest := FieldsCanBeWritten(fields - {key}, whole);
      var node := CanBeWritten(key, fields[key]);
      nodes := rest + [node];
      assert nodes[..|nodes| - 1] == rest;
    }
  }

  lemma {:induction false} CanBeWritten(key: string, v: Value) returns (node: Node)
    requires Writable(v)
    ensures node.name == key && WrittenAs(v, node)
    decreases v, 1
  {
    if Scalar(v) {
      node := Node(key, [Argument(v)], []);
    } else if v.Object? {
      var children := FieldsCanBeWritten(v.fields, v);
      node := Node(key, [], children);
    } else {
      var children := ItemsCanBeWritten(v.items);
      node := Node(key, [], children);
      ItemsAreDashes(v.items, children);
    }
  }

  lemma {:induction false} ItemsCanBeWritten(items: seq<Value>) returns (nodes: seq<Node>)
    requires forall i :: 0 <= i < |items| ==> ItemWritable(items[i])
    ensures ItemsWrittenAs(items, nodes)
    decreases items
  {
    if items == [] {
      nodes := [];
    } else {
      var rest := ItemsCanBeWritten(items[..|items| - 1]);
      var v := items[|items| - 1];
      var node;
      if Scalar(v) {
        node := Node("-", [Argument(v)], []);
      } else {
        var children := FieldsCanBeWritten(v.fields, v);
        node := Node("-", [], children);
      }
      nodes := rest + [node];
      assert nodes[..|nodes| - 1] == rest;
    }
  }

  /** No document reads as an empty array, or as an empty object below the top: nothing could write these. */
  lemma EmptyIsNeverRead(node: Node)
    ensures ValueOf(node) != Array([]) && ValueOf(node) != Object(map[])
    ensures ItemOf(node) != Array([]) && ItemOf(node) != Object(map[])
  {
    var props, args := Props(node.entries), Args(node.entries);
    if HasChildren(node) {
      var children := node.children;
      FieldsAreNonEmpty(children);
      PropsOnlyAdd(FieldsOf(children), props);
    } else if props != [] {
      PropsOnlyAdd(map[], props);
      ArgsOnlyAdd(WithProps(map[], props), args);
    }
  }

  lemma FieldsAreNonEmpty(nodes: seq<Node>)
    requires nodes != []
    ensures nodes[|nodes| - 1].name in FieldsOf(nodes) && |ItemsOf(nodes)| > 0
  {
  }

  lemma {:induction false} PropsOnlyAdd(obj: Fields, props: seq<(string, Value)>)
    ensures obj.Keys <= WithProps(obj, props).Keys
    ensures props != [] ==> WithProps(obj, props) != map[]
    decreases |props|
  {
    if props != [] {
      PropsOnlyAdd(obj, props[..|props| - 1]);
      assert props[|props| - 1].0 in WithProps(obj, props);
    }
  }

  lemma {:induction false} ArgsOnlyAdd(obj: Fields, args: seq<Value>)
    ensures obj.Keys <= WithArgs(obj, args).Keys
    decreases |args|
  {
    if args != [] { ArgsOnlyAdd(obj, args[..|args| - 1]); }
  }

  // ------------------------------------------------------------------ repeated keys

  /** The values of the nodes with a name, in document order. */
  function Occurrences(nodes: seq<Node>, key: string): seq<Value> {
    if nodes == [] then [] else
    var last := nodes[|nodes| - 1];
    Occurrences(nodes[..|nodes| - 1], key) + if last.name == key then [ValueOf(last)] else []
  }

  /** What the values of a key read as: one alone as itself, several as an array; a first array absorbs the others. */
  function Collected(values: seq<Value>): Value
    requires values != []
  {
    if |values| == 1 then values[0]
    else if values[0].Array? then Array(values[0].items + values[1..])
    else Array(values)
  }

  lemma CollectedGrows(before: seq<Value>, v: Value)
    requires before != []
    ensures Collected(before + [v])
         == Array((if Collected(before).Array? then Collected(before).items else [Collected(before)]) + [v])
  {
    assert (before + [v])[1..] == before[1..] + [v] && (before + [v])[0] == before[0];
    if before[0].Array? {
      assert before[0].items + before[1..] + [v] == before[0].items + (before[1..] + [v]);
      assert |before| == 1 ==> before[0].items + before[1..] == before[0].items;
    } else {
      assert |before| == 1 ==> before + [v] == [before[0], v];
    }
  }

  /** One more node: its value joins those of its own key, and no other key changes. */
  lemma NodeJoins(obj: Fields, name: string, v: Value, key: string, before: seq<Value>)
    requires (key in obj <==> before != []) && (before != [] ==> obj[key] == Collected(before))
    ensures var after := before + if name == key then [v] else [];
            var obj' := Accumulate(obj, name, v);
            (key in obj' <==> after != []) && (after != [] ==> obj'[key] == Collected(after))
  {
    hide Collected;
    if before != [] {
      CollectedGrows(before, v);
    } else {
      CollectedAlone(v);
      assert before + [v] == [v];
    }
    assert before + [] == before;
  }

  lemma {:induction false} KeysCollect(nodes: seq<Node>, key: string)
    ensures var values := Occurrences(nodes, key);
            && (key in FieldsOf(nodes) <==> values != [])
            && (values != [] ==> FieldsOf(nodes)[key] == Collected(values))
    decreases |nodes|
  {
    hide Collected, Accumulate, ValueOf;
    if nodes != [] {
      var n := |nodes| - 1;
      KeysCollect(nodes[..n], key);
      NodeJoins(FieldsOf(nodes[..n]), nodes[n].name, ValueOf(nodes[n]), key, Occurrences(nodes[..n], key));
    }
  }

  lemma CollectedAlone(v: Value)
    ensures Collected([v]) == v
  {
  }

  /** A repeated key whose first value is no array reads as all its values in order; an array absorbs the others. */
  lemma RepeatedKeys(nodes: seq<Node>, key: string)
    ensures var values := Occurrences(nodes, key);
            && (key in FieldsOf(nodes) <==> values != [])
            && (|values| == 1 ==> FieldsOf(nodes)[key] == values[0])
            && (|values| > 1 && !values[0].Array? ==> FieldsOf(nodes)[key] == Array(values))
            && (|values| > 1 && values[0].Array? ==> FieldsOf(nodes)[key] == Array(values[0].items + values[1..]))
  {
    KeysCollect(nodes, key);
  }

  // ------------------------------------------------------------------ properties and arguments

  /** Entry `i` is the last property with that name. */
  predicate LastProp(entries: seq<Entry>, name: string, i: nat) {
    && i < |entries| && entries[i].name == Some(name)
    && forall j :: i < j < |entries| ==> entries[j].name != Some(name)
  }

  predicate HasProp(entries: seq<Entry>, name: string) {
    exists i :: 0 <= i < |entries| && entries[i].name == Some(name)
  }

  /** What properties do to an object: each sets its field, the last one of a name counts, and other fields stay. */
  lemma PropsSetFields(obj: Fields, entries: seq<Entry>, name: string)
    ensures var r := WithProps(obj, Props(entries));
            && (name in r <==> name in obj || HasProp(entries, name))
            && (forall i: nat :: LastProp(entries, name, i) ==> r[name] == ScalarValue(entries[i].value))
            && (!HasProp(entries, name) && name in obj ==> r[name] == obj[name])
  {
    hide WithProps, Props, ScalarValue;
    forall i: nat | LastProp(entries, name, i)
      ensures name in WithProps(obj, Props(entries))
      ensures WithProps(obj, Props(entries))[name] == ScalarValue(entries[i].value)
    {
      LastPropCounts(obj, entries, name, i);
    }
    OtherFieldsStay(obj, entries, name);
  }

  lemma {:induction false} OtherFieldsStay(obj: Fields, entries: seq<Entry>, name: string)
    ensures var r := WithProps(obj, Props(entries));
            && (name in r <==> name in obj || HasProp(entries, name))
            && (!HasProp(entries, name) && name in obj ==> r[name] == obj[name])
    decreases |entries|
  {
    hide ScalarValue, WithProps, Props, HasProp;
    NoProps(obj, entries, name);
    if entries != [] {
      OtherFieldsStay(obj, entries[..|entries| - 1], name);
      PropsLast(obj, entries);
      HasPropLast(entries, name);
    }
  }

  lemma {:induction false} LastPropCounts(obj: Fields, entries: seq<Entry>, name: string, i: nat)
    requires LastProp(entries, name, i)
    ensures var r := WithProps(obj, Props(entries)); name in r && r[name] == ScalarValue(entries[i].value)
    decreases |entries|
  {
    hide ScalarValue, WithProps, Props;
    PropsLast(obj, entries);
    LastPropIs(entries, name, i);
    if entries[|entries| - 1].name != Some(name) {
      LastPropCounts(obj, entries[..|entries| - 1], name, i);
    }
  }

  lemma NoProps(obj: Fields, entries: seq<Entry>, name: string)
    ensures entries == [] ==> WithProps(obj, Props(entries)) == obj && !HasProp(entries, name)
  {
  }

  lemma HasPropLast(entries: seq<Entry>, name: string)
    requires entries != []
    ensures HasProp(entries, name)
       <==> HasProp(entries[..|entries| - 1], name) || entries[|entries| - 1].name == Some(name)
  {
    var init := entries[..|entries| - 1];
    if HasProp(init, name) {
      var i :| 0 <= i < |init| && init[i].name == Some(name);
      assert entries[i].name == Some(name);
    }
    if HasProp(entries, name) && entries[|init|].name != Some(name) {
      var i :| 0 <= i < |entries| && entries[i].name == Some(name);
      assert init[i].name == Some(name);
    }
  }

  lemma LastPropIs(entries: seq<Entry>, name: string, i: nat)
    requires LastProp(entries, name, i)
    ensures var n := |entries| - 1;
            && (entries[n].name == Some(name) ==> i == n)
            && (entries[n].name != Some(name) ==>
                  i < n && entries[..n][i] == entries[i] && LastProp(entries[..n], name, i))
  {
  }

  lemma PropsLast(obj: Fields, entries: seq<Entry>)
    requires entries != []
    ensures var e := entries[|entries| - 1];
            var before := WithProps(obj, Props(entries[..|entries| - 1]));
            WithProps(obj, Props(entries))
            == if e.name.Some? then before[e.name.value := ScalarValue(e.value)] else before
  {
    hide ScalarValue;
    var e, before := entries[|entries| - 1], Props(entries[..|entries| - 1]);
    if e.name.Some? {
      assert (before + [(e.name.value, ScalarValue(e.value))])[..|before|] == before;
    } else {
      assert before + [] == before;
    }
  }

  predicate AnyProp(entries: seq<Entry>) {
    exists i :: 0 <= i < |entries| && entries[i].name.Some?
  }

  lemma {:induction false} PropsAreThere(entries: seq<Entry>)
    ensures Props(entries) != [] <==> AnyProp(entries)
    decreases |entries|
  {
    hide ScalarValue;
    if entries != [] {
      var n := |entries| - 1;
      PropsAreThere(entries[..n]);
      assert AnyProp(entries) <==> AnyProp(entries[..n]) || entries[n].name.Some? by {
        if AnyProp(entries[..n]) {
          var i :| 0 <= i < n && entries[..n][i].name.Some?;
          assert entries[i].name.Some?;
        }
        if AnyProp(entries) && entries[n].name.None? {
          var i :| 0 <= i < |entries| && entries[i].name.Some?;
          assert entries[..n][i].name.Some?;
        }
      }
    }
  }

  /** A node with fields inside, and an array item with anything inside: the fields, and the properties over them. */
  lemma BlockIsRead(node: Node, name: string)
    requires HasChildren(node)
    ensures AllDash(node.children) ==> ValueOf(node) == Array(ItemsOf(node.children))
    ensures ItemOf(node).Object? && (!AllDash(node.children) ==> ValueOf(node) == ItemOf(node))
    ensures var inner, fields := FieldsOf(node.children), ItemOf(node).fields;
            && (name in fields <==> name in inner || HasProp(node.entries, name))
            && (forall i: nat :: LastProp(node.entries, name, i) ==> fields[name] == ScalarValue(node.entries[i].value))
            && (!HasProp(node.entries, name) && name in inner ==> fields[name] == inner[name])
  {
    PropsSetFields(FieldsOf(node.children), node.entries, name);
  }

  /** The items of an array are its `-` nodes, in order. */
  lemma {:induction false} ItemsInOrder(nodes: seq<Node>)
    ensures |ItemsOf(nodes)| == |nodes| && forall i :: 0 <= i < |nodes| ==> ItemsOf(nodes)[i] == ItemOf(nodes[i])
    decreases |nodes|
  {
    hide ItemOf;
    if nodes != [] { ItemsInOrder(nodes[..|nodes| - 1]); }
  }

  /** The values of the arguments, in order; properties are none. */
  lemma {:induction false} ArgsOneByOne(a: seq<Entry>, b: seq<Entry>, e: Entry)
    ensures Args(a + b) == Args(a) + Args(b)
    ensures Args([e]) == if e.name.None? then [ScalarValue(e.value)] else []
    decreases |b|
  {
    hide ScalarValue;
    if b == [] {
      assert a + b == a;
    } else {
      var init, last := b[..|b| - 1], b[|b| - 1];
      ArgsOneByOne(a, init, e);
      assert (a + b)[..|a + b| - 1] == a + init && (a + b)[|a + b| - 1] == last;
      var tail := if last.name.None? then [ScalarValue(last.value)] else [];
      assert Args(b) == Args(init) + tail;
      assert Args(a) + Args(init) + tail == Args(a) + (Args(init) + tail);
    }
  }

  /** A leaf without properties is its argument, the array of its arguments, or null. */
  lemma PlainLeafIsRead(node: Node)
    requires !HasChildren(node) && !AnyProp(node.entries)
    ensures var args := Args(node.entries);
            ValueOf(node) == ItemOf(node) == if |args| == 0 then Null else if |args| == 1 then args[0] else Array(args)
  {
    PropsAreThere(node.entries);
  }

  predicate SameField(a: Fields, b: Fields, name: string) {
    (name in a <==> name in b) && (name in b ==> a[name] == b[name])
  }

  /** With properties it is an object of them; its arguments join the field `_`, but are dropped inside an array. */
  lemma LeafWithPropsIsRead(node: Node, name: string)
    requires !HasChildren(node) && AnyProp(node.entries)
    ensures ValueOf(node).Object? && ItemOf(node).Object?
    ensures var item, value, args := ItemOf(node).fields, ValueOf(node).fields, Args(node.entries);
            && (name in item <==> HasProp(node.entries, name))
            && (forall i: nat :: LastProp(node.entries, name, i) ==> item[name] == ScalarValue(node.entries[i].value))
            && (name != "_" || args == [] ==> SameField(value, item, name))
            && (args != [] ==>
                  "_" in value && value["_"] == Collected((if "_" in item then [item["_"]] else []) + args))
  {
    PropsAreThere(node.entries);
    PropsSetFields(map[], node.entries, name);
    PropsAreScalar(node.entries, "_");
    var item := WithProps(map[], Props(node.entries));
    if Args(node.entries) != [] { ArgsCollect(item, Args(node.entries), name); }
  }

  lemma PropsAreScalar(entries: seq<Entry>, name: string)
    ensures var r := WithProps(map[], Props(entries)); name in r ==> !r[name].Array?
    decreases |entries|
  {
    if entries != [] {
      PropsAreScalar(entries[..|entries| - 1], name);
      PropsLast(map[], entries);
    }
  }

  lemma {:induction false} ArgsCollect(obj: Fields, args: seq<Value>, name: string)
    requires "_" in obj ==> !obj["_"].Array?
    requires args != []
    ensures var r := WithArgs(obj, args);
            && (name != "_" ==> SameField(r, obj, name))
            && "_" in r && r["_"] == Collected((if "_" in obj then [obj["_"]] else []) + args)
    decreases |args|
  {
    hide Collected;
    var n := |args| - 1;
    var first := if "_" in obj then [obj["_"]] else [];
    assert first + args == (first + args[..n]) + [args[n]];
    assert args[..n] == [] ==> first + args[..n] == first;
    if n > 0 {
      ArgsCollect(obj, args[..n], name);
    } else if "_" in obj {
      CollectedAlone(obj["_"]);
    }
    NodeJoins(WithArgs(obj, args[..n]), "_", args[n], "_", first + args[..n]);
  }

  /** A float that is no number of JSON reads as null, and every other value as itself. */
  lemma ScalarsAreKept(k: KdlValue)
    ensures match ScalarValue(k)
            case Str(s) => k == KString(s)
            case Int(i) => k == KInt(i)
            case Float(r) => k == KFloat(Some(r))
            case Bool(b) => k == KBool(b)
            case Null => k == KNull || k == KFloat(None)
            case _ => false
  {
  }
}
