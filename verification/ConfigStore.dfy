/**
 The write-through configuration cache over its table: what is cached is what the
 table says, so a store answers as a freshly opened one would. JSON, numbers and
 letter case are foreign functions; a single writer is assumed.

 A value is canonical once it has been decoded: writing it and reading it back
 changes nothing. A full key joins a category and a key with a dot and is split at
 its first dot, so the two agree exactly for categories without one; rows whose key
 has no dot are loaded under `global`. From these three facts follow the exact
 conditions under which the cache, the table and a reopened store agree.
 */
module ConfigStore {
  import opened Bytes

  // ----- values and their text -----

  datatype JsonKind = Dict | List | Scalar

  /** A JSON value, by its kind and the text the encoder gives it. */
  datatype Json = Json(kind: JsonKind, text: string)

  /** A setting's value; `Other` is anything else, by the text `str` gives it. */
  datatype Value =
    | Bool(b: bool) | Int(n: int) | Float(shown: string)
    | Document(json: Json) | Text(s: string) | Other(shown: string)

  datatype Kind = BoolKind | IntKind | FloatKind | JsonKindOf(kind: JsonKind) | TextKind

  function KindOf(v: Value): Kind {
    match v
    case Bool(_) => BoolKind
    case Int(_) => IntKind
    case Float(_) => FloatKind
    case Document(j) => JsonKindOf(j.kind)
    case _ => TextKind
  }

  datatype Codec = Codec(
    parseJson: string -> Option<Json>, parseInt: string -> Option<int>, showInt: int -> string,
    parseFloat: string -> Option<string>, lower: string -> string, defaults: map<string, Value>)

  const YES: set<string> := {"true", "1", "yes", "on"}
  const NO: set<string> := {"false", "0", "no", "off"}

  /** Parsing undoes showing, for whatever parsing once gave and for the declared defaults. */
  ghost predicate RoundTrips(c: Codec) {
    && (forall raw :: c.parseJson(raw).Some? ==> c.parseJson(c.parseJson(raw).value.text) == c.parseJson(raw))
    && (forall n :: c.parseInt(c.showInt(n)) == Some(n))
    && (forall raw :: c.parseFloat(raw).Some? ==> c.parseFloat(c.parseFloat(raw).value) == c.parseFloat(raw))
    && c.lower("true") == "true" && c.lower("false") == "false"
    && (forall k :: k in c.defaults ==> GoodDefault(c, c.defaults[k]))
  }

  predicate GoodDefault(c: Codec, v: Value) {
    match v
    case Document(j) => j.kind != Scalar && c.parseJson(j.text) == Some(j)
    case Float(shown) => c.parseFloat(shown) == Some(shown)
    case Other(_) => false
    case _ => true
  }

  function Encode(c: Codec, v: Value): string {
    match v
    case Document(j) => j.text
    case Bool(b) => if b then "true" else "false"
    case Int(n) => c.showInt(n)
    case Float(shown) => shown
    case Text(s) => s
    case Other(shown) => shown
  }

  function OrElse(parsed: Option<Value>, default: Value): Value {
    if parsed.Some? then parsed.value else default
  }

  function ParseBool(c: Codec, raw: string): Option<Value> {
    if c.lower(raw) in YES then Some(Bool(true)) else if c.lower(raw) in NO then Some(Bool(false)) else None
  }

  function ParseDocument(c: Codec, kind: JsonKind, raw: string): Option<Value> {
    var parsed := c.parseJson(raw);
    if parsed.Some? && parsed.value.kind == kind then Some(Document(parsed.value)) else None
  }

  function ParseNumber(c: Codec, kind: Kind, raw: string): Option<Value> {
    if kind == IntKind then
      var n := c.parseInt(raw);
      if n.Some? then Some(Int(n.value)) else None
    else
      var x := c.parseFloat(raw);
      if x.Some? then Some(Float(x.value)) else None
  }

  /** Stored text as the type of the key's default; what does not parse reads as the default. */
  function Decode(c: Codec, fullKey: string, raw: string): Value {
    if fullKey !in c.defaults then Text(raw)
    else
      var default := c.defaults[fullKey];
      match KindOf(default)
      case JsonKindOf(kind) => OrElse(ParseDocument(c, kind, raw), default)
      case BoolKind => OrElse(ParseBool(c, raw), default)
      case TextKind => Text(raw)
      case number => OrElse(ParseNumber(c, number, raw), default)
  }

  /** The canonical value a setting takes. */
  function Normalize(c: Codec, fullKey: string, v: Value): Value {
    Decode(c, fullKey, Encode(c, v))
  }

  /** Whatever text a key holds, the value read from it is written and read back unchanged. */
  lemma DecodedIsCanonical(c: Codec, fullKey: string, raw: string)
    requires RoundTrips(c)
    ensures Normalize(c, fullKey, Decode(c, fullKey, raw)) == Decode(c, fullKey, raw)
  {
    var v := Decode(c, fullKey, raw);
    if fullKey in c.defaults {
      var default := c.defaults[fullKey];
      assert GoodDefault(c, default);
      match KindOf(default)
      case JsonKindOf(kind) =>
        assert c.parseJson(raw).Some? ==> c.parseJson(c.parseJson(raw).value.text) == c.parseJson(raw);
      case BoolKind =>
      case TextKind =>
      case FloatKind =>
        assert c.parseFloat(raw).Some? ==> c.parseFloat(c.parseFloat(raw).value) == c.parseFloat(raw);
      case IntKind =>
        assert v.Int? && c.parseInt(c.showInt(v.n)) == Some(v.n);
    }
  }

  /**
   What a stored text reads as, by the kind of its key's default. A boolean has four
   spellings each way, a document must be of the default's own kind, and what does not
   parse reads as the default; a text, or a key without a default, reads verbatim.
   */
  lemma DecodeMeans(c: Codec, k: string, raw: string)
    ensures k !in c.defaults || c.defaults[k].Text? || c.defaults[k].Other? ==> Decode(c, k, raw) == Text(raw)
    ensures k in c.defaults && c.defaults[k].Bool? ==>
              Decode(c, k, raw) == if c.lower(raw) in ["true", "1", "yes", "on"] then Bool(true)
                                   else if c.lower(raw) in ["false", "0", "no", "off"] then Bool(false)
                                   else c.defaults[k]
    ensures k in c.defaults && c.defaults[k].Int? ==>
              Decode(c, k, raw) == match c.parseInt(raw) { case Some(n) => Int(n) case None => c.defaults[k] }
    ensures k in c.defaults && c.defaults[k].Float? ==>
              Decode(c, k, raw) == match c.parseFloat(raw) { case Some(x) => Float(x) case None => c.defaults[k] }
    ensures k in c.defaults && c.defaults[k].Document? ==>
              Decode(c, k, raw) == match c.parseJson(raw) {
                                     case Some(j) => if j.kind == c.defaults[k].json.kind then Document(j)
                                                     else c.defaults[k]
                                     case None => c.defaults[k]
                                   }
  {
  }

  // ----- addresses and keys -----

  datatype Address = Address(category: string, key: string)

  function FullKey(a: Address): string {
    a.category + "." + a.key
  }

  function FirstDot(s: string): (i: nat)
    ensures i <= |s| && (forall j :: 0 <= j < i ==> s[j] != '.') && (i < |s| ==> s[i] == '.')
  {
    if s == [] || s[0] == '.' then 0 else 1 + FirstDot(s[1..])
  }

  /** Split at the first dot; a key without one is global. */
  function Split(fullKey: string): Address {
    var i := FirstDot(fullKey);
    if i < |fullKey| then Address(fullKey[..i], fullKey[i + 1..]) else Address("global", fullKey)
  }

  predicate Dotless(s: string) {
    '.' !in s
  }

  /** Splitting undoes joining exactly for the categories without a dot. */
  lemma SplitUndoesJoin(a: Address)
    ensures Split(FullKey(a)) == a <==> Dotless(a.category)
    ensures Dotless(Split(FullKey(a)).category) && FullKey(Split(FullKey(a))) == FullKey(a)
  {
    var s, n := FullKey(a), |a.category|;
    var i := FirstDot(s);
    assert s[n] == '.' && s[..n] == a.category && s[n + 1..] == a.key;
    assert i <= n;
    assert i < n ==> a.category[i] == '.';
    assert s == s[..i] + "." + s[i + 1..];
  }

  /** Joining undoes splitting exactly for the keys with a dot. */
  lemma JoinUndoesSplit(fullKey: string)
    ensures FullKey(Split(fullKey)) == fullKey <==> !Dotless(fullKey)
    ensures Dotless(Split(fullKey).category)
  {
    var i := FirstDot(fullKey);
    if i < |fullKey| {
      assert fullKey == fullKey[..i] + "." + fullKey[i + 1..];
    } else {
      assert fullKey[..i] == fullKey;
      assert |FullKey(Split(fullKey))| > |fullKey|;
    }
  }

  // ----- the table, the cache and what they should agree on -----

  type Table = map<string, string>
  type Cache = map<Address, Value>

  /** Missing default rows are added; existing rows stay. */
  function WithDefaults(c: Codec, table: Table): Table {
    map k | k in table.Keys + c.defaults.Keys :: if k in table then table[k] else Encode(c, c.defaults[k])
  }

  /** What the table alone answers. */
  function Lookup(c: Codec, table: Table, a: Address, fallback: Value): Value {
    var k := FullKey(a);
    if k in table then Decode(c, k, table[k])
    else if k in c.defaults then c.defaults[k]
    else fallback
  }

  function Stored(c: Codec, table: Table, a: Address, v: Value): Table {
    table[FullKey(a) := Encode(c, Normalize(c, FullKey(a), v))]
  }

  /** The rows are loaded in the order the database returns them. */
  function Loaded(c: Codec, table: Table, rows: seq<string>): Cache
    requires forall k :: k in rows ==> k in table
  {
    if rows == [] then map[]
    else
      var n := |rows| - 1;
      Loaded(c, table, rows[..n])[Split(rows[n]) := Decode(c, rows[n], table[rows[n]])]
  }

  ghost predicate Lists(rows: seq<string>, table: Table) {
    forall k :: k in rows <==> k in table
  }

  predicate Agrees(c: Codec, table: Table, cache: Cache, a: Address)
    requires a in cache
  {
    FullKey(a) in table && cache[a] == Decode(c, FullKey(a), table[FullKey(a)])
  }

  /** Every cached value is the decoded row of its own full key. */
  predicate Coherent(c: Codec, table: Table, cache: Cache) {
    forall a :: a in cache ==> Agrees(c, table, cache, a)
  }

  predicate DotlessCategories(cache: Cache) {
    forall a :: a in cache ==> Dotless(a.category)
  }

  // ----- the store -----

  class PostgresConfigStore {
    const codec: Codec
    var table: Table
    var cache: Cache

    /** Opening adds missing defaults and loads every row, in whatever order they come. */
    constructor (codec: Codec, existing: Table, rows: seq<string>)
      requires Lists(rows, WithDefaults(codec, existing))
      ensures this.codec == codec && table == WithDefaults(codec, existing)
      ensures cache == Loaded(codec, table, rows)
    {
      this.codec := codec;
      table := WithDefaults(codec, existing);
      cache := map[];
      new;
      LoadCache(rows);
    }

    method LoadCache(rows: seq<string>)
      requires forall k :: k in rows ==> k in table
      modifies this`cache
      ensures cache == Loaded(codec, table, rows)
    {
      cache := map[];
      for i := 0 to |rows|
        invariant cache == Loaded(codec, table, rows[..i])
      {
        assert rows[..i + 1][..i] == rows[..i];
        cache := cache[Split(rows[i]) := Decode(codec, rows[i], table[rows[i]])];
      }
      assert rows[..|rows|] == rows;
    }

    /**
     A coherent store answers what its table says, stays coherent, and caches only
     the address it was asked for.
     */
    method Get(category: string, key: string, fallback: Value) returns (v: Value)
      requires Coherent(codec, table, cache)
      modifies this`cache
      ensures v == Lookup(codec, table, Address(category, key), fallback)
      ensures var k := category + "." + key;
              v == if k in table then Decode(codec, k, table[k])
                   else if k in codec.defaults then codec.defaults[k] else fallback
      ensures Coherent(codec, table, cache)
      ensures cache == AfterGet(codec, table, old(cache), Address(category, key))
    {
      var a := Address(category, key);
      if a in cache {
        assert Agrees(codec, table, cache, a);
        return cache[a];
      }
      var fullKey := FullKey(a);
      if fullKey in table {
        v := Decode(codec, fullKey, table[fullKey]);
        cache := cache[a := v];
        return;
      }
      v := if fullKey in codec.defaults then codec.defaults[fullKey] else fallback;
    }

    /** The canonical value is written to the row and to the cache, and nothing else changes. */
    method Set(category: string, key: string, value: Value)
      modifies this
      ensures table == Stored(codec, old(table), Address(category, key), value)
      ensures cache == old(cache)[Address(category, key) := Normalize(codec, category + "." + key, value)]
    {
      var fullKey := category + "." + key;
      var normalized := Decode(codec, fullKey, Encode(codec, value));
      var serialized := Encode(codec, normalized);
      table := table[fullKey := serialized];
      cache := cache[Address(category, key) := normalized];
    }
  }

  /** A row found for an address not yet cached is cached. */
  function AfterGet(c: Codec, table: Table, cache: Cache, a: Address): Cache {
    if a !in cache && FullKey(a) in table then cache[a := Decode(c, FullKey(a), table[FullKey(a)])] else cache
  }

  // ----- setting, and when it leaves a stale value -----

  /** Another cached address joins to the same full key. */
  predicate Shadowed(cache: Cache, a: Address, b: Address) {
    b in cache && b != a && FullKey(b) == FullKey(a)
  }

  /**
   After a set, a coherent store is still coherent if and only if every other
   cached address with the same full key already held the new value.
   */
  lemma SetKeepsCoherenceIff(c: Codec, table: Table, cache: Cache, a: Address, v: Value)
    requires RoundTrips(c) && Coherent(c, table, cache)
    ensures Coherent(c, Stored(c, table, a, v), cache[a := Normalize(c, FullKey(a), v)])
      <==> forall b :: Shadowed(cache, a, b) ==> cache[b] == Normalize(c, FullKey(a), v)
  {
    var k := FullKey(a);
    var w := Normalize(c, k, v);
    var table', cache' := Stored(c, table, a, v), cache[a := w];
    DecodedIsCanonical(c, k, Encode(c, v));
    assert Decode(c, k, table'[k]) == w;
    hide Decode, Encode, Normalize, RoundTrips;
    forall b | b in cache'
      ensures Agrees(c, table', cache', b) <==> (Shadowed(cache, a, b) ==> cache[b] == w)
    {
      assert b in cache ==> Agrees(c, table, cache, b);
    }
    if forall b :: Shadowed(cache, a, b) ==> cache[b] == w {
      assert Coherent(c, table', cache');
    } else {
      var b :| Shadowed(cache, a, b) && cache[b] != w;
      assert !Agrees(c, table', cache', b);
    }
  }

  /** With dotless categories no two addresses share a full key, so a set never leaves a stale value. */
  lemma DotlessNeverShadowed(cache: Cache, a: Address, b: Address)
    requires DotlessCategories(cache) && Dotless(a.category)
    ensures !Shadowed(cache, a, b)
  {
    SplitUndoesJoin(a);
    SplitUndoesJoin(b);
  }

  /** A dotted category can leave one: the address the row is loaded under keeps the old value. */
  lemma DottedCategoryGoesStale(c: Codec, v: Value)
    requires RoundTrips(c) && "a.b.c" !in c.defaults && Encode(c, v) != "old"
    ensures var a, b := Address("a.b", "c"), Address("a", "b.c");
            var table := map["a.b.c" := "old"];
            var cache := Loaded(c, table, ["a.b.c"]);
            && Coherent(c, table, cache)
            && !Coherent(c, Stored(c, table, a, v), cache[a := Normalize(c, FullKey(a), v)])
  {
    var a, b, table := Address("a.b", "c"), Address("a", "b.c"), map["a.b.c" := "old"];
    var rows := ["a.b.c"];
    SplitUndoesJoin(b);
    assert FullKey(a) == FullKey(b) == "a.b.c";
    assert rows[..0] == [] && Loaded(c, table, rows[..0]) == map[];
    var cache := Loaded(c, table, rows);
    assert cache == map[b := Text("old")];
    SetKeepsCoherenceIff(c, table, cache, a, v);
    assert Shadowed(cache, a, b);
  }

  // ----- opening -----

  /** A cached value comes from some row that splits to its address. */
  lemma {:induction false} LoadedFromARow(c: Codec, table: Table, rows: seq<string>, a: Address) returns (k: string)
    requires (forall k :: k in rows ==> k in table) && a in Loaded(c, table, rows)
    ensures k in rows && Split(k) == a && Loaded(c, table, rows)[a] == Decode(c, k, table[k])
  {
    var n := |rows| - 1;
    k := rows[n];
    if Split(k) != a {
      k := LoadedFromARow(c, table, rows[..n], a);
    }
  }

  /** A row whose key has no dot reads as the row of the same key under `global`. */
  predicate GlobalTwin(c: Codec, table: Table, k: string)
    requires k in table
  {
    "global." + k in table && Decode(c, k, table[k]) == Decode(c, "global." + k, table["global." + k])
  }

  predicate TwinsMatch(c: Codec, table: Table) {
    forall k :: k in table && Dotless(k) ==> GlobalTwin(c, table, k)
  }

  lemma LoadedIsCoherent(c: Codec, table: Table, rows: seq<string>)
    requires Lists(rows, table) && TwinsMatch(c, table)
    ensures Coherent(c, table, Loaded(c, table, rows)) && DotlessCategories(Loaded(c, table, rows))
  {
    hide Decode, Loaded, Split, FullKey, Dotless;
    forall a | a in Loaded(c, table, rows)
      ensures Agrees(c, table, Loaded(c, table, rows), a) && Dotless(a.category)
    {
      var k := LoadedFromARow(c, table, rows, a);
      JoinUndoesSplit(k);
      if Dotless(k) {
        assert GlobalTwin(c, table, k);
        DotlessSplit(k);
      }
    }
  }

  lemma DotlessSplit(k: string)
    requires Dotless(k)
    ensures Split(k) == Address("global", k) && FullKey(Split(k)) == "global." + k
  {
    assert FirstDot(k) == |k|;
  }

  /** The rows of a table in an order that ends with a given one. */
  lemma {:induction false} OrderEndingWith(table: Table, last: string) returns (rows: seq<string>)
    requires last in table
    ensures Lists(rows, table) && rows != [] && rows[|rows| - 1] == last
  {
    if table.Keys == {last} {
      rows := [last];
    } else {
      assert table.Keys - {last} != {};
      var k :| k in table.Keys - {last};
      rows := OrderEndingWith(table - {k}, last);
      rows := [k] + rows;
    }
  }

  /**
   A newly opened cache is coherent whatever order its rows come in, if and only
   if every row without a dot matches a `global` row of the same key.
   */
  lemma OpeningIsCoherentIff(c: Codec, table: Table)
    ensures (forall rows :: Lists(rows, table) ==> Coherent(c, table, Loaded(c, table, rows))) <==> TwinsMatch(c, table)
  {
    if TwinsMatch(c, table) {
      forall rows | Lists(rows, table)
        ensures Coherent(c, table, Loaded(c, table, rows))
      {
        LoadedIsCoherent(c, table, rows);
      }
    } else {
      var k :| k in table && Dotless(k) && !GlobalTwin(c, table, k);
      var rows := OrderEndingWith(table, k);
      DotlessSplit(k);
      assert Lists(rows, table) && !Agrees(c, table, Loaded(c, table, rows), Split(k));
    }
  }

  // ----- whole runs -----

  datatype Op = Get(address: Address, fallback: Value) | Set(address: Address, value: Value)

  datatype State = State(table: Table, cache: Cache)

  /** One operation of the cached store and its answer, if it gives one. */
  function Do(c: Codec, s: State, op: Op): (State, Option<Value>) {
    var a := op.address;
    match op
    case Get(_, fallback) =>
      (State(s.table, AfterGet(c, s.table, s.cache, a)),
       Some(if a in s.cache then s.cache[a] else Lookup(c, s.table, a, fallback)))
    case Set(_, v) =>
      (State(Stored(c, s.table, a, v), s.cache[a := Normalize(c, FullKey(a), v)]), None)
  }

  /** The same operation on the table alone, without a cache. */
  function DoUncached(c: Codec, table: Table, op: Op): (Table, Option<Value>) {
    match op
    case Get(a, fallback) => (table, Some(Lookup(c, table, a, fallback)))
    case Set(a, v) => (Stored(c, table, a, v), None)
  }

  function Run(c: Codec, s: State, ops: seq<Op>): (State, seq<Option<Value>>)
    decreases |ops|
  {
    if ops == [] then (s, [])
    else
      var (s', answer) := Do(c, s, ops[0]);
      var (end, answers) := Run(c, s', ops[1..]);
      (end, [answer] + answers)
  }

  function RunUncached(c: Codec, table: Table, ops: seq<Op>): (Table, seq<Option<Value>>)
    decreases |ops|
  {
    if ops == [] then (table, [])
    else
      var (table', answer) := DoUncached(c, table, ops[0]);
      var (end, answers) := RunUncached(c, table', ops[1..]);
      (end, [answer] + answers)
  }

  predicate Sound(c: Codec, s: State) {
    Coherent(c, s.table, s.cache) && DotlessCategories(s.cache)
  }

  predicate DotlessOps(ops: seq<Op>) {
    forall i :: 0 <= i < |ops| ==> Dotless(ops[i].address.category)
  }

  lemma DoIsTransparent(c: Codec, s: State, op: Op)
    requires RoundTrips(c) && Sound(c, s) && Dotless(op.address.category)
    ensures Sound(c, Do(c, s, op).0)
    ensures Do(c, s, op).0.table == DoUncached(c, s.table, op).0 && Do(c, s, op).1 == DoUncached(c, s.table, op).1
  {
    hide Decode, Encode, Normalize, RoundTrips, FullKey, Dotless;
    var a := op.address;
    match op
    case Get(_, _) =>
      assert a in s.cache ==> Agrees(c, s.table, s.cache, a);
    case Set(_, v) =>
      SetKeepsCoherenceIff(c, s.table, s.cache, a, v);
      forall b
        ensures !Shadowed(s.cache, a, b)
      {
        DotlessNeverShadowed(s.cache, a, b);
      }
  }

  /** Over every run with dotless categories, the cached store gives the answers and the table of the uncached one. */
  lemma {:induction false} CacheIsTransparent(c: Codec, s: State, ops: seq<Op>)
    requires RoundTrips(c) && Sound(c, s) && DotlessOps(ops)
    ensures Sound(c, Run(c, s, ops).0)
    ensures Run(c, s, ops).0.table == RunUncached(c, s.table, ops).0
    ensures Run(c, s, ops).1 == RunUncached(c, s.table, ops).1
    decreases |ops|
  {
    hide Decode, Encode, Normalize, RoundTrips, FullKey, Dotless, Sound, Do, DoUncached;
    if ops != [] {
      DoIsTransparent(c, s, ops[0]);
      CacheIsTransparent(c, Do(c, s, ops[0]).0, ops[1..]);
    }
  }

  // ----- reopening -----

  function Opened(c: Codec, table: Table, rows: seq<string>): State
    requires forall k :: k in rows ==> k in table
  {
    State(table, Loaded(c, table, rows))
  }

  /** What a store in this state answers. */
  function Answer(c: Codec, s: State, a: Address, fallback: Value): Value {
    Do(c, s, Get(a, fallback)).1.value
  }

  /** A cached value that was loaded from a row without a dot. */
  predicate FromDotlessRow(c: Codec, s: State, a: Address)
    requires a in s.cache
  {
    a.category == "global" && Dotless(a.key) && a.key in s.table && s.cache[a] == Decode(c, a.key, s.table[a.key])
  }

  predicate Justified(c: Codec, s: State, a: Address)
    requires a in s.cache
  {
    Dotless(a.category) && (Agrees(c, s.table, s.cache, a) || FromDotlessRow(c, s, a))
  }

  /** Every cached value is that of its own row or of a row without a dot, and those rows are always cached. */
  predicate Loose(c: Codec, s: State) {
    && (forall a :: a in s.cache ==> Justified(c, s, a))
    && (forall k :: k in s.table && Dotless(k) ==> Address("global", k) in s.cache)
  }

  lemma {:induction false} LoadedHasRow(c: Codec, table: Table, rows: seq<string>, k: string)
    requires (forall r :: r in rows ==> r in table) && k in rows
    ensures Split(k) in Loaded(c, table, rows)
  {
    hide Decode, Split;
    var n := |rows| - 1;
    if rows[n] != k {
      LoadedHasRow(c, table, rows[..n], k);
    }
  }

  lemma OpenedIsLoose(c: Codec, table: Table, rows: seq<string>)
    requires Lists(rows, table)
    ensures Loose(c, Opened(c, table, rows))
  {
    hide Decode, Loaded, Split, FullKey, Dotless;
    var s := Opened(c, table, rows);
    forall a | a in s.cache
      ensures Justified(c, s, a)
    {
      var k := LoadedFromARow(c, table, rows, a);
      JoinUndoesSplit(k);
      if Dotless(k) { DotlessSplit(k); }
    }
    forall k | k in table && Dotless(k)
      ensures Address("global", k) in s.cache
    {
      LoadedHasRow(c, table, rows, k);
      DotlessSplit(k);
    }
  }

  lemma JoinedHasDot(a: Address)
    ensures !Dotless(FullKey(a))
  {
    assert FullKey(a)[|a.category|] == '.';
  }

  lemma DoStaysLoose(c: Codec, s: State, op: Op)
    requires RoundTrips(c) && Loose(c, s) && Dotless(op.address.category)
    ensures Loose(c, Do(c, s, op).0) && s.table.Keys <= Do(c, s, op).0.table.Keys
  {
    hide Decode, Encode, RoundTrips, FullKey, Dotless;
    var a, s' := op.address, Do(c, s, op).0;
    JoinedHasDot(a);
    match op
    case Get(_, _) =>
      forall b | b in s'.cache
        ensures Justified(c, s', b)
      {
        assert b in s.cache ==> Justified(c, s, b);
      }
    case Set(_, v) =>
      DecodedIsCanonical(c, FullKey(a), Encode(c, v));
      forall b | b in s'.cache
        ensures Justified(c, s', b)
      {
        if b != a {
          assert Justified(c, s, b);
          if FullKey(b) == FullKey(a) { SameKeySameAddress(a, b); }
        }
      }
  }

  lemma SameKeySameAddress(a: Address, b: Address)
    requires Dotless(a.category) && Dotless(b.category) && FullKey(a) == FullKey(b)
    ensures a == b
  {
    SplitUndoesJoin(a);
    SplitUndoesJoin(b);
  }

  lemma {:induction false} RunStaysLoose(c: Codec, s: State, ops: seq<Op>)
    requires RoundTrips(c) && Loose(c, s) && DotlessOps(ops)
    ensures Loose(c, Run(c, s, ops).0) && s.table.Keys <= Run(c, s, ops).0.table.Keys
    decreases |ops|
  {
    hide RoundTrips, Dotless, Loose, Do;
    if ops != [] {
      DoStaysLoose(c, s, ops[0]);
      RunStaysLoose(c, Do(c, s, ops[0]).0, ops[1..]);
    }
  }

  /** Where a row without a dot has a `global` twin, both read alike. */
  predicate TwinsAgree(c: Codec, table: Table) {
    forall k :: k in table && Dotless(k) && "global." + k in table ==> GlobalTwin(c, table, k)
  }

  /** If twins agree, all loose stores over one table answer alike. */
  lemma LooseStoresAnswerAlike(c: Codec, s: State, t: State, a: Address, fallback: Value)
    requires Loose(c, s) && Loose(c, t) && s.table == t.table && TwinsAgree(c, s.table) && Dotless(a.category)
    ensures Answer(c, s, a, fallback) == Answer(c, t, a, fallback)
  {
    hide Decode, Dotless;
    assert a in s.cache ==> Justified(c, s, a);
    assert a in t.cache ==> Justified(c, t, a);
    GlobalKey(a);
    if a.category == "global" && a.key in s.table && "global." + a.key in s.table && Dotless(a.key) {
      assert GlobalTwin(c, s.table, a.key);
    }
  }

  /** A store opened with the given row last answers that row's address with that row's value. */
  lemma LastRowAnswers(c: Codec, table: Table, rows: seq<string>, k: string, fallback: Value)
    requires Lists(rows, table) && rows != [] && rows[|rows| - 1] == k
    ensures Answer(c, Opened(c, table, rows), Split(k), fallback) == Decode(c, k, table[k])
  {
    hide Decode, Split;
  }

  /** If some twins disagree, the answer depends on the order in which rows are loaded. */
  lemma DisagreeingTwinsShow(c: Codec, table: Table, k: string) returns (rows: seq<string>, rows': seq<string>)
    requires k in table && Dotless(k) && "global." + k in table && !GlobalTwin(c, table, k)
    ensures Lists(rows, table) && Lists(rows', table)
    ensures var a := Address("global", k);
            Answer(c, Opened(c, table, rows), a, Other("")) != Answer(c, Opened(c, table, rows'), a, Other(""))
  {
    hide Decode, Answer, Loaded;
    rows := OrderEndingWith(table, k);
    rows' := OrderEndingWith(table, "global." + k);
    DotlessSplit(k);
    GlobalIsDotless();
    SplitUndoesJoin(Address("global", k));
    LastRowAnswers(c, table, rows, k, Other(""));
    LastRowAnswers(c, table, rows', "global." + k, Other(""));
  }

  lemma GlobalKey(a: Address)
    ensures a.category == "global" ==> FullKey(a) == "global." + a.key
  {
    assert "global" + "." == "global.";
  }

  lemma GlobalIsDotless()
    ensures Dotless("global")
  {
  }

  /** A freshly opened store answers every dotless address as the running one does, whatever the order of its rows. */
  ghost predicate ReopensAlike(c: Codec, now: State) {
    forall rows, a: Address, fallback :: Lists(rows, now.table) && Dotless(a.category) ==>
      Answer(c, Opened(c, now.table, rows), a, fallback) == Answer(c, now, a, fallback)
  }

  /**
   After any run with dotless categories, from opening any table whatever,
   reopening changes no row; and the reopened store answers as the running one, in
   every row order, if and only if no row without a dot disagrees with a `global`
   row of its key.
   */
  lemma FreshStoreAgreesIff(c: Codec, existing: Table, rows: seq<string>, ops: seq<Op>)
    requires RoundTrips(c) && DotlessOps(ops) && Lists(rows, WithDefaults(c, existing))
    ensures var now := Run(c, Opened(c, WithDefaults(c, existing), rows), ops).0;
            && WithDefaults(c, now.table) == now.table
            && (ReopensAlike(c, now) <==> TwinsAgree(c, now.table))
  {
    hide RoundTrips, Run, Loose, Loaded, Decode, Dotless, Answer;
    var start := Opened(c, WithDefaults(c, existing), rows);
    OpenedIsLoose(c, start.table, rows);
    RunStaysLoose(c, start, ops);
    var now := Run(c, start, ops).0;
    if TwinsAgree(c, now.table) {
      forall rows', a: Address, fallback | Lists(rows', now.table) && Dotless(a.category)
        ensures Answer(c, Opened(c, now.table, rows'), a, fallback) == Answer(c, now, a, fallback)
      {
        OpenedIsLoose(c, now.table, rows');
        LooseStoresAnswerAlike(c, Opened(c, now.table, rows'), now, a, fallback);
      }
    } else {
      var k :| k in now.table && Dotless(k) && "global." + k in now.table && !GlobalTwin(c, now.table, k);
      var rows1, rows2 := DisagreeingTwinsShow(c, now.table, k);
      GlobalIsDotless();
      var a := Address("global", k);
      assert Answer(c, Opened(c, now.table, rows1), a, Other("")) != Answer(c, now, a, Other(""))
          || Answer(c, Opened(c, now.table, rows2), a, Other("")) != Answer(c, now, a, Other(""));
    }
  }

  /**
   A value of the kind its key's default has is stored and read back unchanged, and so
   is a text under any other key.
   */
  lemma OwnKindReadsBack(c: Codec, table: Table, a: Address, v: Value, fallback: Value)
    requires RoundTrips(c) && GoodDefault(c, v)
    requires if FullKey(a) in c.defaults then KindOf(v) == KindOf(c.defaults[FullKey(a)]) else v.Text?
    ensures Stored(c, table, a, v) == table[a.category + "." + a.key := Encode(c, v)]
    ensures Lookup(c, Stored(c, table, a, v), a, fallback) == v
  {
    hide RoundTrips;
    ReadsBack(c, FullKey(a), v);
  }

  lemma ReadsBack(c: Codec, k: string, v: Value)
    requires RoundTrips(c) && GoodDefault(c, v)
    requires if k in c.defaults then KindOf(v) == KindOf(c.defaults[k]) else v.Text?
    ensures Normalize(c, k, v) == v
  {
    match v
    case Int(n) => assert c.parseInt(c.showInt(n)) == Some(n);
    case _ =>
  }

  /**
   A get after a set gives the canonical value, whatever came between that sets other
   keys; setting it again changes no row.
   */
  lemma {:induction false} ReadsLastWrite(c: Codec, table: Table, a: Address, v: Value, ops: seq<Op>, fallback: Value)
    requires RoundTrips(c)
    requires forall i :: 0 <= i < |ops| && ops[i].Set? ==> FullKey(ops[i].address) != FullKey(a)
    ensures var end := RunUncached(c, Stored(c, table, a, v), ops).0;
            && Lookup(c, end, a, fallback) == Normalize(c, FullKey(a), v)
            && Stored(c, end, a, Lookup(c, end, a, fallback)) == end
  {
    var k, table' := FullKey(a), Stored(c, table, a, v);
    DecodedIsCanonical(c, k, Encode(c, v));
    OtherKeysKeepRow(c, table', k, ops);
  }

  lemma {:induction false} OtherKeysKeepRow(c: Codec, table: Table, k: string, ops: seq<Op>)
    requires k in table && forall i :: 0 <= i < |ops| && ops[i].Set? ==> FullKey(ops[i].address) != k
    ensures k in RunUncached(c, table, ops).0 && RunUncached(c, table, ops).0[k] == table[k]
    decreases |ops|
  {
    hide Decode, Encode, Normalize, FullKey;
    if ops != [] {
      assert ops[0].Set? ==> FullKey(ops[0].address) != k;
      OtherKeysKeepRow(c, DoUncached(c, table, ops[0]).0, k, ops[1..]);
    }
  }
}
