/** Canonical JSON of the durable header, and its real size: strings escaped as
    in section 7 of RFC 8259, object members sorted by name. The size
    projection of owner retention bounds it. */
module CanonicalJson {
  import opened Text
  import opened Collections
  import opened Owners
  import H = HeaderSize

  const MAX_DEPTH: nat := 64

  datatype Value =
    | Null | Bool(b: bool) | Unsigned(n: nat) | Str(s: string) | Array(items: seq<Value>) | Object(fields: seq<Field>)

  datatype Field = Field(name: string, value: Value)

  // ---- Writing -----------------------------------------------------------------------------

  function HexDigit(d: nat): char
    requires d < 16
  {
    if d < 10 then '0' + d as char else 'a' + (d - 10) as char
  }

  /** Characters here are single bytes. */
  function Escaped(c: char): string {
    if c == '\"' then ['\\', '\"']
    else if c == '\\' then ['\\', '\\']
    else if c == 8 as char then ['\\', 'b']
    else if c == '\t' then ['\\', 't']
    else if c == '\n' then ['\\', 'n']
    else if c == 12 as char then ['\\', 'f']
    else if c == '\r' then ['\\', 'r']
    else if c as int <= 0x1f then ['\\', 'u', '0', '0', HexDigit(c as int / 16), HexDigit(c as int % 16)]
    else [c]
  }

  function EscapedAll(s: string): string { if s == "" then "" else EscapedAll(s[..|s| - 1]) + Escaped(s[|s| - 1]) }

  function Quoted(s: string): string { ['\"'] + EscapedAll(s) + ['\"'] }

  /** Names compare character by character. */
  predicate Precedes(a: string, b: string) {
    if a == "" then true
    else if b == "" then false
    else if a[0] != b[0] then a[0] < b[0]
    else Precedes(a[1..], b[1..])
  }

  function Inserted(f: Field, fields: seq<Field>): seq<Field> {
    if fields == [] then [f]
    else if Precedes(f.name, fields[0].name) then [f] + fields
    else [fields[0]] + Inserted(f, fields[1..])
  }

  function Sorted(fields: seq<Field>): seq<Field> {
    if fields == [] then [] else Inserted(fields[0], Sorted(fields[1..]))
  }

  function Joined(a: Option<string>, b: Option<string>): Option<string> {
    if a.Some? && b.Some? then Some(a.value + b.value) else None
  }

  /** `write_value`: refuses values nested too deep, numbers out of range and
      repeated names. */
  function Encode(v: Value, depth: nat): Option<string>
    decreases MAX_DEPTH + 2 - depth, 2, 0
  {
    if depth > MAX_DEPTH then None else
    match v
    case Null => Some("null")
    case Bool(b) => Some(if b then "true" else "false")
    case Unsigned(n) => if n > MAX_SAFE_INTEGER then None else Some(Digits(n))
    case Str(s) => Some(Quoted(s))
    case Array(items) => Joined(Joined(Some("["), EncodeItems(items, depth + 1)), Some("]"))
    case Object(fields) =>
      var sorted := Sorted(fields);
      if exists i :: 0 <= i < |sorted| - 1 && sorted[i].name == sorted[i + 1].name then None
      else Joined(Joined(Some("{"), EncodeFields(sorted, depth + 1)), Some("}"))
  }

  function EncodeItems(items: seq<Value>, depth: nat): Option<string>
    requires depth <= MAX_DEPTH + 1
    decreases MAX_DEPTH + 2 - depth, 3, |items|
  {
    if items == [] then Some("") else
    var n := |items| - 1;
    var last := Joined(Some(if n == 0 then "" else ","), Encode(items[n], depth));
    Joined(EncodeItems(items[..n], depth), last)
  }

  function EncodeFields(fields: seq<Field>, depth: nat): Option<string>
    requires depth <= MAX_DEPTH + 1
    decreases MAX_DEPTH + 2 - depth, 3, |fields|
  {
    if fields == [] then Some("") else
    var first := Joined(Some(Quoted(fields[0].name) + ":"), Encode(fields[0].value, depth));
    Joined(Joined(first, Some(if |fields| == 1 then "" else ",")), EncodeFields(fields[1..], depth))
  }

  // ---- Sizes -------------------------------------------------------------------------------

  function Size(v: Value): nat
    decreases v
  {
    match v
    case Null => 4
    case Bool(b) => if b then 4 else 5
    case Unsigned(n) => |Digits(n)|
    case Str(s) => |Quoted(s)|
    case Array(items) => 2 + ItemsSize(items)
    case Object(fields) => 2 + FieldsSize(fields)
  }

  /** Items and their separators. */
  function ItemsSize(items: seq<Value>): nat
    decreases items
  {
    if items == [] then 0
    else ItemsSize(items[..|items| - 1]) + (if |items| == 1 then 0 else 1) + Size(items[|items| - 1])
  }

  /** Members and their separators. */
  function FieldsSize(fields: seq<Field>): nat
    decreases fields
  {
    if fields == [] then 0
    else
      |Quoted(fields[0].name)| + 1 + Size(fields[0].value)
      + (if |fields| == 1 then 0 else 1) + FieldsSize(fields[1..])
  }

  lemma ConsSize(f: Field, fields: seq<Field>)
    ensures FieldsSize([f] + fields)
         == |Quoted(f.name)| + 1 + Size(f.value) + (if fields == [] then 0 else 1) + FieldsSize(fields)
  {
    assert ([f] + fields)[1..] == fields;
  }

  lemma {:induction false} InsertedSize(f: Field, fields: seq<Field>)
    ensures FieldsSize(Inserted(f, fields)) == FieldsSize([f] + fields) && |Inserted(f, fields)| == |fields| + 1
    decreases |fields|
  {
    ConsSize(f, fields);
    if fields == [] {
      assert [f] + fields == [f];
    } else if !Precedes(f.name, fields[0].name) {
      InsertedSize(f, fields[1..]);
      ConsSize(f, fields[1..]);
      ConsSize(fields[0], Inserted(f, fields[1..]));
      assert fields == [fields[0]] + fields[1..];
      ConsSize(fields[0], fields[1..]);
    }
  }

  /** Sorting the members does not change their size. */
  lemma {:induction false} SortedSize(fields: seq<Field>)
    ensures FieldsSize(Sorted(fields)) == FieldsSize(fields) && |Sorted(fields)| == |fields|
    decreases |fields|
  {
    if fields != [] {
      SortedSize(fields[1..]);
      InsertedSize(fields[0], Sorted(fields[1..]));
      ConsSize(fields[0], Sorted(fields[1..]));
      ConsSize(fields[0], fields[1..]);
      assert fields == [fields[0]] + fields[1..];
    }
  }

  /** The size of a value is the length of its canonical text. */
  lemma {:induction false} EncodedSize(v: Value, depth: nat)
    requires Encode(v, depth).Some?
    ensures |Encode(v, depth).value| == Size(v)
    decreases MAX_DEPTH + 2 - depth, 2, 0
  {
    hide Sorted, Digits, Quoted;
    match v {
      case Array(items) => EncodedItems(items, depth + 1);
      case Object(fields) =>
        SortedSize(fields);
        EncodedFields(Sorted(fields), depth + 1);
      case _ =>
    }
  }

  lemma {:induction false} EncodedItems(items: seq<Value>, depth: nat)
    requires depth <= MAX_DEPTH + 1 && EncodeItems(items, depth).Some?
    ensures |EncodeItems(items, depth).value| == ItemsSize(items)
    decreases MAX_DEPTH + 2 - depth, 3, |items|
  {
    if items != [] {
      EncodedItems(items[..|items| - 1], depth);
      EncodedSize(items[|items| - 1], depth);
    }
  }

  lemma {:induction false} EncodedFields(fields: seq<Field>, depth: nat)
    requires depth <= MAX_DEPTH + 1 && EncodeFields(fields, depth).Some?
    ensures |EncodeFields(fields, depth).value| == FieldsSize(fields)
    decreases MAX_DEPTH + 2 - depth, 3, |fields|
  {
    if fields != [] {
      EncodedSize(fields[0].value, depth);
      EncodedFields(fields[1..], depth);
    }
  }

  // ---- When writing succeeds ---------------------------------------------------------------

  predicate DistinctNames(fields: seq<Field>) {
    forall i, j | 0 <= i < j < |fields| :: fields[i].name != fields[j].name
  }

  /** Nested at most `room` deep, with distinct names and numbers in range. */
  predicate Encodable(v: Value, room: nat)
    decreases v
  {
    match v
    case Unsigned(n) => n <= MAX_SAFE_INTEGER
    case Array(items) => room > 0 && forall i | 0 <= i < |items| :: Encodable(items[i], room - 1)
    case Object(fields) =>
      room > 0 && DistinctNames(fields) && forall i | 0 <= i < |fields| :: Encodable(fields[i].value, room - 1)
    case _ => true
  }

  lemma {:induction false} InsertedNames(f: Field, fields: seq<Field>)
    requires DistinctNames([f] + fields)
    ensures DistinctNames(Inserted(f, fields))
    ensures forall x :: x in Inserted(f, fields) <==> x == f || x in fields
    decreases |fields|
  {
    if fields != [] && !Precedes(f.name, fields[0].name) {
      var rest := fields[1..];
      assert fields == [fields[0]] + rest;
      forall i, j | 0 <= i < j < |[f] + rest| ensures ([f] + rest)[i].name != ([f] + rest)[j].name {
        var a := if i == 0 then 0 else i + 1;
        assert ([f] + rest)[j] == ([f] + fields)[j + 1] && ([f] + rest)[i] == ([f] + fields)[a];
      }
      InsertedNames(f, rest);
      forall x | x in Inserted(f, rest) ensures x.name != fields[0].name {
        if x == f {
          assert ([f] + fields)[0] == f && ([f] + fields)[1] == fields[0];
        } else {
          var k :| 0 <= k < |rest| && rest[k] == x;
          assert ([f] + fields)[k + 2] == x && ([f] + fields)[1] == fields[0];
        }
      }
    }
  }

  lemma {:induction false} SortedNames(fields: seq<Field>)
    requires DistinctNames(fields)
    ensures DistinctNames(Sorted(fields)) && forall x :: x in Sorted(fields) <==> x in fields
    decreases |fields|
  {
    if fields != [] {
      var f, rest := fields[0], fields[1..];
      SortedNames(rest);
      assert fields == [f] + rest;
      forall x | x in Sorted(rest) ensures x.name != f.name {
        var k :| 0 <= k < |rest| && rest[k] == x;
        assert fields[k + 1] == x;
      }
      InsertedNames(f, Sorted(rest));
    }
  }

  lemma {:induction false} EncodeSucceeds(v: Value, room: nat, depth: nat)
    requires Encodable(v, room) && depth + room <= MAX_DEPTH
    ensures Encode(v, depth).Some?
    decreases room, 0
  {
    match v {
      case Array(items) => ItemsSucceed(items, room - 1, depth + 1);
      case Object(fields) =>
        SortedNames(fields);
        var sorted := Sorted(fields);
        forall i | 0 <= i < |sorted| ensures Encodable(sorted[i].value, room - 1) {
          assert sorted[i] in fields;
        }
        FieldsSucceed(sorted, room - 1, depth + 1);
      case _ =>
    }
  }

  lemma {:induction false} ItemsSucceed(items: seq<Value>, room: nat, depth: nat)
    requires depth + room <= MAX_DEPTH && forall i | 0 <= i < |items| :: Encodable(items[i], room)
    ensures EncodeItems(items, depth).Some?
    decreases room, 1, |items|
  {
    if items != [] {
      ItemsSucceed(items[..|items| - 1], room, depth);
      EncodeSucceeds(items[|items| - 1], room, depth);
    }
  }

  lemma {:induction false} FieldsSucceed(fields: seq<Field>, room: nat, depth: nat)
    requires depth + room <= MAX_DEPTH && forall i | 0 <= i < |fields| :: Encodable(fields[i].value, room)
    ensures EncodeFields(fields, depth).Some?
    decreases room, 1, |fields|
  {
    if fields != [] {
      EncodeSucceeds(fields[0].value, room, depth);
      FieldsSucceed(fields[1..], room, depth);
    }
  }

  // ---- The header -----------------------------------------------------------------------------

  function Nullable(s: Option<string>): Value { match s case None => Null case Some(v) => Str(v) }

  function BindingValue(b: Binding): Value {
    Object([Field("node_id", Str(b.nodeId)), Field("unit", Str(b.unit)), Field("request_key", Nullable(b.requestKey)),
            Field("fingerprint", Nullable(b.fingerprint)), Field("resource_id", Nullable(b.resourceId)),
            Field("recipe_fingerprint", Nullable(b.recipeFingerprint))])
  }

  function ModeName(m: Mode): string {
    match m case File => "file" case Socket => "socket" case BrowserSession => "browser_session"
  }

  function ModeValue(o: Owner): Value { if o.mode.None? then Null else Str(ModeName(o.mode.value)) }

  function RequestValue(o: Owner): Value { if o.request.None? then Null else BindingValue(o.request.value) }

  function OwnerValue(key: Key, o: Owner): Value {
    Object([Field("event_key", Str(key)), Field("workload_id", Str(o.workloadId)),
            Field("invocation_id", Str(o.invocationId)),
            Field("mode", ModeValue(o)), Field("cancel_requested", Bool(o.cancelRequested)),
            Field("cancel_acknowledged", Bool(o.cancelAcknowledged)), Field("browser_request", RequestValue(o))])
  }

  function ClosureValue(key: Key, status: string): Value {
    Object([Field("event_key", Str(key)), Field("status", Str(status))])
  }

  /** Identifier-like fields need no escaping. */
  predicate IsPlain(s: string) { forall i | 0 <= i < |s| :: IsIdChar(s[i]) }

  predicate IsGraphic(s: string) { forall i | 0 <= i < |s| :: 0x21 <= s[i] as int <= 0x7e }

  lemma {:induction false} EscapedPlain(s: string)
    requires IsPlain(s)
    ensures EscapedAll(s) == s
    decreases |s|
  {
    if s != "" {
      EscapedPlain(s[..|s| - 1]);
      PlainChar(s[|s| - 1]);
      assert s == s[..|s| - 1] + [s[|s| - 1]];
    }
  }

  lemma PlainChar(c: char)
    requires IsIdChar(c)
    ensures Escaped(c) == [c]
  {
  }

  lemma {:induction false} EscapedGraphic(s: string)
    requires IsGraphic(s)
    ensures |EscapedAll(s)| <= 2 * |s|
    decreases |s|
  {
    if s != "" {
      EscapedGraphic(s[..|s| - 1]);
    }
  }

  lemma PlainSize(s: string)
    requires IsPlain(s)
    ensures |Quoted(s)| == 2 + |s|
  {
    EscapedPlain(s);
  }

  predicate PlainOption(s: Option<string>) { s.Some? ==> IsPlain(s.value) }

  lemma NullableSize(s: Option<string>)
    requires PlainOption(s)
    ensures Size(Nullable(s)) == Optional(s)
  {
    if s.Some? {
      PlainSize(s.value);
    }
  }

  predicate BindingText(b: Binding) {
    && IsPlain(b.nodeId) && IsGraphic(b.unit) && PlainOption(b.requestKey) && PlainOption(b.resourceId)
    && PlainOption(b.fingerprint) && PlainOption(b.recipeFingerprint)
    && (b.fingerprint.Some? ==> |b.fingerprint.value| == 64)
    && (b.recipeFingerprint.Some? ==> |b.recipeFingerprint.value| == 64)
  }

  lemma SixFields(a: Field, b: Field, c: Field, d: Field, e: Field, f: Field)
    ensures FieldsSize([a, b, c, d, e, f])
         == |Quoted(a.name)| + |Quoted(b.name)| + |Quoted(c.name)|
            + |Quoted(d.name)| + |Quoted(e.name)| + |Quoted(f.name)|
            + Size(a.value) + Size(b.value) + Size(c.value) + Size(d.value) + Size(e.value) + Size(f.value) + 11
  {
    ThreeFields(d, e, f);
    ConsSize(c, [d, e, f]);
    ConsSize(b, [c, d, e, f]);
    ConsSize(a, [b, c, d, e, f]);
    assert [c] + [d, e, f] == [c, d, e, f] && [b] + [c, d, e, f] == [b, c, d, e, f];
    assert [a] + [b, c, d, e, f] == [a, b, c, d, e, f];
  }

  lemma ThreeFields(a: Field, b: Field, c: Field)
    ensures FieldsSize([a, b, c])
         == |Quoted(a.name)| + |Quoted(b.name)| + |Quoted(c.name)| + Size(a.value) + Size(b.value) + Size(c.value) + 5
  {
    ConsSize(c, []);
    ConsSize(b, [c]);
    ConsSize(a, [b, c]);
    assert [c] + [] == [c] && [b] + [c] == [b, c] && [a] + [b, c] == [a, b, c];
  }

  lemma BindingNames()
    ensures |Quoted("node_id")| == 9 && |Quoted("unit")| == 6 && |Quoted("request_key")| == 13
  {
    PlainSize("node_id");
    PlainSize("unit");
    PlainSize("request_key");
  }

  lemma DigestNames()
    ensures |Quoted("fingerprint")| == 13 && |Quoted("resource_id")| == 13 && |Quoted("recipe_fingerprint")| == 20
  {
    PlainSize("fingerprint");
    PlainSize("resource_id");
    PlainSize("recipe_fingerprint");
  }

  /** The projection of a binding bounds its real size, escaping included. */
  lemma BindingSize(b: Binding)
    requires BindingText(b)
    ensures Size(BindingValue(b)) <= BindingBound(b)
  {
    BindingNames();
    DigestNames();
    SixFields(Field("node_id", Str(b.nodeId)), Field("unit", Str(b.unit)), Field("request_key", Nullable(b.requestKey)),
              Field("fingerprint", Nullable(b.fingerprint)), Field("resource_id", Nullable(b.resourceId)),
              Field("recipe_fingerprint", Nullable(b.recipeFingerprint)));
    PlainSize(b.nodeId);
    EscapedGraphic(b.unit);
    NullableSize(b.requestKey);
    NullableSize(b.fingerprint);
    NullableSize(b.resourceId);
    NullableSize(b.recipeFingerprint);
  }

  lemma SevenFields(a: Field, b: Field, c: Field, d: Field, e: Field, f: Field, g: Field)
    ensures FieldsSize([a, b, c, d, e, f, g])
         == FieldsSize([b, c, d, e, f, g]) + |Quoted(a.name)| + Size(a.value) + 2
  {
    ConsSize(a, [b, c, d, e, f, g]);
    assert [a] + [b, c, d, e, f, g] == [a, b, c, d, e, f, g];
  }

  predicate OwnerText(key: Key, o: Owner) {
    && IsPlain(key) && IsPlain(o.workloadId) && IsPlain(o.invocationId)
    && (o.request.Some? ==> BindingText(o.request.value))
  }

  lemma OwnerNames()
    ensures |Quoted("event_key")| == 11 && |Quoted("workload_id")| == 13 && |Quoted("invocation_id")| == 15
    ensures |Quoted("mode")| == 6
  {
    PlainSize("event_key");
    PlainSize("workload_id");
    PlainSize("invocation_id");
    PlainSize("mode");
  }

  lemma FlagNames()
    ensures |Quoted("cancel_requested")| == 18 && |Quoted("cancel_acknowledged")| == 21
    ensures |Quoted("browser_request")| == 17 && |Quoted("status")| == 8
  {
    PlainSize("cancel_requested");
    PlainSize("cancel_acknowledged");
    PlainSize("browser_request");
    PlainSize("status");
  }

  lemma ModeSize(m: Mode)
    ensures |Quoted(ModeName(m))| <= 17
  {
    PlainSize(ModeName(m));
  }

  lemma OwnerFields(key: Key, o: Owner)
    ensures Size(OwnerValue(key, o))
         == 116 + |Quoted(key)| + |Quoted(o.workloadId)| + |Quoted(o.invocationId)| + Size(ModeValue(o))
            + Size(Bool(o.cancelRequested)) + Size(Bool(o.cancelAcknowledged)) + Size(RequestValue(o))
  {
    OwnerNames();
    FlagNames();
    var workload, invocation := Field("workload_id", Str(o.workloadId)), Field("invocation_id", Str(o.invocationId));
    var mode, request := Field("mode", ModeValue(o)), Field("browser_request", RequestValue(o));
    var asked := Field("cancel_requested", Bool(o.cancelRequested));
    var acked := Field("cancel_acknowledged", Bool(o.cancelAcknowledged));
    SixFields(workload, invocation, mode, asked, acked, request);
    SevenFields(Field("event_key", Str(key)), workload, invocation, mode, asked, acked, request);
  }

  /** One owner record and its separator. */
  lemma OwnerSizeBound(key: Key, o: Owner)
    requires OwnerText(key, o)
    ensures Size(OwnerValue(key, o)) + 1 <= OwnerBound(key, o)
  {
    OwnerFields(key, o);
    PlainSize(key);
    PlainSize(o.workloadId);
    PlainSize(o.invocationId);
    if o.mode.Some? { ModeSize(o.mode.value); }
    if o.request.Some? { BindingSize(o.request.value); }
  }

  lemma ClosureSizeBound(key: Key, status: string)
    requires IsPlain(key) && IsPlain(status)
    ensures Size(ClosureValue(key, status)) + 1 == ClosureBound(key, status)
  {
    OwnerNames();
    FlagNames();
    var a, b := Field("event_key", Str(key)), Field("status", Str(status));
    ConsSize(b, []);
    ConsSize(a, [b]);
    assert [b] + [] == [b] && [a] + [b] == [a, b];
    PlainSize(key);
    PlainSize(status);
  }

  // ---- The whole header -------------------------------------------------------------------------

  function OwnerItems(t: Tables, keys: seq<Key>): seq<Value> {
    seq(|keys|, i requires 0 <= i < |keys| =>
      if keys[i] in t.owners.values then OwnerValue(keys[i], t.owners.values[keys[i]]) else Null)
  }

  function ClosureItems(t: Tables, keys: seq<Key>): seq<Value> {
    seq(|keys|, i requires 0 <= i < |keys| =>
      if keys[i] in t.closures.values then ClosureValue(keys[i], t.closures.values[keys[i]]) else Null)
  }

  /** The header; `ownerKeys` and `closureKeys` are the tables' keys in the
      order in which the maps are walked. */
  function HeaderValue(
    t: Tables, ownerKeys: seq<Key>, closureKeys: seq<Key>, overflow: bool, acknowledged: bool): Value
  {
    Object([Field("audit_overflow_pending", Bool(overflow)), Field("node_revocation_acknowledged", Bool(acknowledged)),
            Field("operation_owners", Array(OwnerItems(t, ownerKeys))),
            Field("operation_closures", Array(ClosureItems(t, closureKeys))), Field("v", Unsigned(5))])
  }

  ghost predicate TablesText(t: Tables) {
    && (forall k | k in t.owners.values :: OwnerText(k, t.owners.values[k]))
    && (forall k | k in t.closures.values :: IsPlain(k) && IsPlain(t.closures.values[k]))
  }

  lemma {:induction false} OwnerItemsSize(t: Tables, keys: seq<Key>)
    requires TablesText(t) && forall k | k in keys :: k in t.owners.values
    ensures ItemsSize(OwnerItems(t, keys)) <= Sum(keys, OwnerSize(t))
    decreases |keys|
  {
    if keys != [] {
      var n := |keys| - 1;
      OwnerItemsSize(t, keys[..n]);
      assert OwnerItems(t, keys)[..n] == OwnerItems(t, keys[..n]);
      assert keys[n] in keys;
      OwnerSizeBound(keys[n], t.owners.values[keys[n]]);
    }
  }

  lemma {:induction false} ClosureItemsSize(t: Tables, keys: seq<Key>)
    requires TablesText(t) && forall k | k in keys :: k in t.closures.values
    ensures ItemsSize(ClosureItems(t, keys)) <= Sum(keys, ClosureSize(t))
    decreases |keys|
  {
    if keys != [] {
      var n := |keys| - 1;
      ClosureItemsSize(t, keys[..n]);
      assert ClosureItems(t, keys)[..n] == ClosureItems(t, keys[..n]);
      assert keys[n] in keys;
      ClosureSizeBound(keys[n], t.closures.values[keys[n]]);
    }
  }

  lemma HasFirst(keys: seq<Key>)
    requires keys != []
    ensures exists k :: k in keys
  {
    assert keys[0] in keys;
  }

  /** Two orders of the same keys have the same sum. */
  lemma {:induction false} SumAnyOrder(a: seq<Key>, b: seq<Key>, f: Key -> nat)
    requires Distinct(a) && Distinct(b) && forall k :: k in a <==> k in b
    ensures Sum(a, f) == Sum(b, f)
    decreases |a|
  {
    if a == [] {
      if b != [] {
        HasFirst(b);
        assert false;
      }
    } else {
      var n := |a| - 1;
      assert a == a[..n] + [a[n]];
      assert a[n] in a && a[n] !in a[..n];
      MinusFacts(b, a[n]);
      SumAnyOrder(a[..n], Minus(b, a[n]), f);
      H.SumMinus(b, a[n], f);
    }
  }

  lemma HeaderFlagNames()
    ensures |Quoted("audit_overflow_pending")| == 24 && |Quoted("node_revocation_acknowledged")| == 30
  {
    PlainSize("audit_overflow_pending");
    PlainSize("node_revocation_acknowledged");
  }

  lemma HeaderTableNames()
    ensures |Quoted("operation_owners")| == 18 && |Quoted("operation_closures")| == 20 && |Quoted("v")| == 3
    ensures |Digits(5)| == 1
  {
    PlainSize("operation_owners");
    PlainSize("operation_closures");
    PlainSize("v");
  }

  lemma HeaderFields(a: Field, b: Field, c: Field, d: Field, e: Field)
    ensures FieldsSize([a, b, c, d, e])
         == |Quoted(a.name)| + |Quoted(b.name)| + |Quoted(c.name)| + |Quoted(d.name)| + |Quoted(e.name)|
            + Size(a.value) + Size(b.value) + Size(c.value) + Size(d.value) + Size(e.value) + 9
  {
    ThreeFields(c, d, e);
    ConsSize(b, [c, d, e]);
    ConsSize(a, [b, c, d, e]);
    assert [b] + [c, d, e] == [b, c, d, e] && [a] + [b, c, d, e] == [a, b, c, d, e];
  }

  lemma HeaderValueSize(
    t: Tables, ownerKeys: seq<Key>, closureKeys: seq<Key>, overflow: bool, acknowledged: bool)
    ensures Size(HeaderValue(t, ownerKeys, closureKeys, overflow, acknowledged))
         <= 121 + ItemsSize(OwnerItems(t, ownerKeys)) + ItemsSize(ClosureItems(t, closureKeys))
  {
    HeaderFlagNames();
    HeaderTableNames();
    HeaderFields(Field("audit_overflow_pending", Bool(overflow)),
                 Field("node_revocation_acknowledged", Bool(acknowledged)),
                 Field("operation_owners", Array(OwnerItems(t, ownerKeys))),
                 Field("operation_closures", Array(ClosureItems(t, closureKeys))), Field("v", Unsigned(5)));
  }

  lemma BindingEncodable(b: Binding, room: nat)
    requires room > 0
    ensures Encodable(BindingValue(b), room)
  {
    assert "request_key"[2] == 'q' && "resource_id"[2] == 's' && "fingerprint"[0] == 'f';
  }

  lemma OwnerEncodable(key: Key, o: Owner, room: nat)
    requires room > 1
    ensures Encodable(OwnerValue(key, o), room)
  {
    if o.request.Some? {
      BindingEncodable(o.request.value, room - 1);
    }
  }

  lemma HeaderEncodable(
    t: Tables, ownerKeys: seq<Key>, closureKeys: seq<Key>, overflow: bool, acknowledged: bool)
    ensures Encodable(HeaderValue(t, ownerKeys, closureKeys, overflow, acknowledged), 4)
  {
    var owners, closures := OwnerItems(t, ownerKeys), ClosureItems(t, closureKeys);
    forall i | 0 <= i < |owners| ensures Encodable(owners[i], 2) {
      if ownerKeys[i] in t.owners.values {
        OwnerEncodable(ownerKeys[i], t.owners.values[ownerKeys[i]], 2);
      }
    }
    assert Encodable(Array(owners), 3) && Encodable(Array(closures), 3);
  }

  /** The projection bounds the header the writer would really produce, in
      whatever order its tables are walked. */
  lemma ProjectionIsUpperBound(
    t: Tables, ownerKeys: seq<Key>, closureKeys: seq<Key>, overflow: bool, acknowledged: bool)
    requires WellFormed(t.owners) && WellFormed(t.closures) && TablesText(t)
    requires Distinct(ownerKeys) && forall k :: k in ownerKeys <==> k in t.owners.values
    requires Distinct(closureKeys) && forall k :: k in closureKeys <==> k in t.closures.values
    ensures var text := Encode(HeaderValue(t, ownerKeys, closureKeys, overflow, acknowledged), 0);
            text.Some? && |text.value| <= Projected(t)
  {
    HeaderEncodable(t, ownerKeys, closureKeys, overflow, acknowledged);
    EncodeSucceeds(HeaderValue(t, ownerKeys, closureKeys, overflow, acknowledged), 4, 0);
    EncodedSize(HeaderValue(t, ownerKeys, closureKeys, overflow, acknowledged), 0);
    HeaderValueSize(t, ownerKeys, closureKeys, overflow, acknowledged);
    OwnerItemsSize(t, ownerKeys);
    ClosureItemsSize(t, closureKeys);
    SumAnyOrder(ownerKeys, t.owners.order, OwnerSize(t));
    SumAnyOrder(closureKeys, t.closures.order, ClosureSize(t));
  }

  // ---- Over runs --------------------------------------------------------------------------------

  /** Admitted owners and closure words are printable. */
  predicate EventText(e: H.Event) {
    && (e.Admit? ==> OwnerText(e.key, e.o))
    && (e.Close? ==> IsPlain(e.status))
  }

  lemma StepKeepsText(t: Tables, e: H.Event)
    requires TablesText(t) && H.TablesOk(t) && H.Enabled(t, e) && EventText(e)
    ensures TablesText(H.Step(t, e))
  {
    hide OwnerText, IsPlain;
    match e {
      case Admit(key, o) => InsertFacts(t.owners, key, o);
      case Close(key, status) =>
        KeyText(t, key);
        CloseInserts(t, key, status);
      case Evict(victims) =>
        var x := Without(t, victims);
        forall k | k in x.owners.values ensures k in t.owners.values && x.owners.values[k] == t.owners.values[k] {
          WithoutOthers(t, victims, k);
        }
        forall k | k in x.closures.values
          ensures k in t.closures.values && x.closures.values[k] == t.closures.values[k]
        {
          WithoutOthers(t, victims, k);
        }
      case Amend(key, requested, acknowledged) =>
        AmendText(key, t.owners.values[key], requested, acknowledged);
        InsertFacts(t.owners, key, H.Step(t, e).owners.values[key]);
      case Withdraw(key) =>
    }
  }

  lemma KeyText(t: Tables, key: Key)
    requires TablesText(t) && key in t.owners.values
    ensures IsPlain(key)
  {
  }

  lemma AmendText(key: Key, o: Owner, requested: bool, acknowledged: bool)
    ensures OwnerText(key, o.(cancelRequested := requested, cancelAcknowledged := acknowledged)) == OwnerText(key, o)
  {
  }

  lemma CloseInserts(t: Tables, key: Key, status: string)
    requires H.TablesOk(t) && key in t.owners.values
    ensures H.Closed(t, key, status).closures.values == t.closures.values[key := status]
  {
    if key !in t.closures.values {
      H.OneMoreClosure(t, key);
    }
    InsertFacts(t.closures, key, status);
  }

  lemma {:induction false} RunText(ts: seq<Tables>, es: seq<H.Event>, i: nat)
    requires H.IsRun(ts, es) && i < |ts|
    requires forall k | 0 <= k < |es| :: EventText(es[k]) && !H.Lengthens(ts[k], es[k])
    ensures TablesText(ts[i])
  {
    if i > 0 {
      RunText(ts, es, i - 1);
      H.HeaderStaysBounded(ts, es, i - 1);
      StepKeepsText(ts[i - 1], es[i - 1]);
    }
  }

  /** In every state of every run of admissions, closures and evictions in which
      no closure replaces a shorter one, the header can be written, in whatever
      order its tables are walked, and is at most one mebibyte. */
  lemma HeaderAlwaysFits(
    ts: seq<Tables>, es: seq<H.Event>, i: nat, ownerKeys: seq<Key>, closureKeys: seq<Key>, overflow: bool,
    acknowledged: bool)
    requires H.IsRun(ts, es) && i < |ts|
    requires forall k | 0 <= k < |es| :: EventText(es[k]) && !H.Lengthens(ts[k], es[k])
    requires Distinct(ownerKeys) && forall k :: k in ownerKeys <==> k in ts[i].owners.values
    requires Distinct(closureKeys) && forall k :: k in closureKeys <==> k in ts[i].closures.values
    ensures var text := Encode(HeaderValue(ts[i], ownerKeys, closureKeys, overflow, acknowledged), 0);
            text.Some? && |text.value| <= MAX_HEADER_BYTES
  {
    RunText(ts, es, i);
    H.HeaderStaysBounded(ts, es, i);
    ProjectionIsUpperBound(ts[i], ownerKeys, closureKeys, overflow, acknowledged);
  }

  // ---- Reading a binding back -----------------------------------------------------------------

  const NAMES: seq<string> := ["node_id", "unit", "request_key", "fingerprint", "resource_id", "recipe_fingerprint"]

  /** The first member with that name. */
  function Get(fields: seq<Field>, name: string): Option<Value> {
    if fields == [] then None
    else if fields[0].name == name then Some(fields[0].value)
    else Get(fields[1..], name)
  }

  predicate IsEventKey(s: string) { 16 <= |s| <= 128 && IsPlain(s) }

  predicate IsHexDigest(s: string) {
    |s| == 64 && forall i | 0 <= i < |s| :: IsDigit(s[i]) || 'a' <= s[i] <= 'f'
  }

  /** A withdrawal before admission, or a full request. */
  predicate ValidBinding(b: Binding) {
    && IsOpaqueId(b.nodeId) && b.unit != "" && |b.unit| <= 256 && IsGraphic(b.unit)
    && (b.requestKey.Some? ==> IsEventKey(b.requestKey.value))
    && ((b.fingerprint.None? && b.resourceId.None? && b.recipeFingerprint.None? && b.requestKey.Some?)
        || (b.fingerprint.Some? && b.resourceId.Some? && b.recipeFingerprint.Some?
            && IsHexDigest(b.fingerprint.value) && IsOpaqueId(b.resourceId.value)
            && IsHexDigest(b.recipeFingerprint.value)))
  }

  function OptionalText(v: Option<Value>): Option<Option<string>> {
    match v
    case Some(Null) => Some(None)
    case Some(Str(s)) => Some(Some(s))
    case _ => None
  }

  function ParseBinding(v: Value): Option<Binding> {
    if !v.Object? || |v.fields| != 6 || exists i :: 0 <= i < 6 && v.fields[i].name !in NAMES then None else
    match (Get(v.fields, NAMES[0]), Get(v.fields, NAMES[1]), OptionalText(Get(v.fields, NAMES[2])),
           OptionalText(Get(v.fields, NAMES[3])), OptionalText(Get(v.fields, NAMES[4])),
           OptionalText(Get(v.fields, NAMES[5])))
    case (Some(Str(node)), Some(Str(unit)), Some(key), Some(digest), Some(resource), Some(recipe)) =>
      var b := Binding(node, unit, key, digest, resource, recipe);
      if ValidBinding(b) then Some(b) else None
    case _ => None
  }

  lemma NamesDiffer()
    ensures forall i, j | 0 <= i < j < 6 :: NAMES[i] != NAMES[j]
  {
    assert "request_key"[2] == 'q' && "resource_id"[2] == 's' && "fingerprint"[0] == 'f';
  }

  /** With six distinct names, each member is found under its own. */
  lemma GetEach(names: seq<string>, values: seq<Value>, k: nat)
    requires |names| == |values| && k < |names| && forall i, j | 0 <= i < j < |names| :: names[i] != names[j]
    ensures Get(seq(|names|, i requires 0 <= i < |names| => Field(names[i], values[i])), names[k]) == Some(values[k])
    decreases k
  {
    var fields := seq(|names|, i requires 0 <= i < |names| => Field(names[i], values[i]));
    if k > 0 {
      var n', v' := names[1..], values[1..];
      GetEach(n', v', k - 1);
      assert fields[1..] == seq(|n'|, i requires 0 <= i < |n'| => Field(n'[i], v'[i]));
    }
  }

  function BindingValues(b: Binding): seq<Value> {
    [Str(b.nodeId), Str(b.unit), Nullable(b.requestKey), Nullable(b.fingerprint), Nullable(b.resourceId),
     Nullable(b.recipeFingerprint)]
  }

  lemma BindingMembers(b: Binding, k: nat)
    requires k < 6
    ensures BindingValue(b).fields[k].name == NAMES[k]
            && Get(BindingValue(b).fields, NAMES[k]) == Some(BindingValues(b)[k])
  {
    NamesDiffer();
    GetEach(NAMES, BindingValues(b), k);
    assert BindingValue(b).fields == seq(6, i requires 0 <= i < 6 => Field(NAMES[i], BindingValues(b)[i]));
  }

  /** Reading undoes writing on exactly the valid bindings. */
  lemma BindingRoundTrip(b: Binding)
    ensures ParseBinding(BindingValue(b)) == Some(b) <==> ValidBinding(b)
  {
    forall k: nat | k < 6
      ensures BindingValue(b).fields[k].name == NAMES[k]
              && Get(BindingValue(b).fields, NAMES[k]) == Some(BindingValues(b)[k])
    {
      BindingMembers(b, k);
    }
  }
}
