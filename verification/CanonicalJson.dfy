/** The curriculum contract's payload (scripts/curriculum-evidence.ts): keys in code-unit order,
    then printed and escaped. SHA-256 of the payload stays outside. */
module CanonicalJson {
  import opened Json

  // ---- Key order ----

  /** The order of the source's comparison: by code units, a prefix first. */
  predicate Before(a: Text, b: Text) {
    if b == [] then false
    else if a == [] then true
    else a[0] < b[0] || (a[0] == b[0] && Before(a[1..], b[1..]))
  }

  /** Spelled out: at the first unit where they differ a has the smaller one, or a ends there. */
  ghost predicate DiffersAt(a: Text, b: Text, k: nat) {
    k <= |a| && k < |b| && a[..k] == b[..k] && (k == |a| || a[k] < b[k])
  }

  lemma {:induction false} BeforeIff(a: Text, b: Text)
    ensures Before(a, b) <==> exists k: nat :: DiffersAt(a, b, k)
  {
    if a == [] || b == [] {
      if b != [] { assert DiffersAt(a, b, 0); }
    } else if a[0] < b[0] {
      assert DiffersAt(a, b, 0);
    } else {
      BeforeIff(a[1..], b[1..]);
      if k: nat :| DiffersAt(a, b, k) {
        assert a[..k][0] == b[..k][0];
        assert a[1..][..k - 1] == a[..k][1..] && b[1..][..k - 1] == b[..k][1..];
        assert DiffersAt(a[1..], b[1..], k - 1);
      }
      if a[0] == b[0] {
        if k: nat :| DiffersAt(a[1..], b[1..], k) {
          assert a[..k + 1] == [a[0]] + a[1..][..k] && b[..k + 1] == [b[0]] + b[1..][..k];
          assert DiffersAt(a, b, k + 1);
        }
      }
    }
  }

  lemma {:induction false} BeforeTotal(a: Text, b: Text)
    ensures a == b || Before(a, b) || Before(b, a)
    ensures !(Before(a, b) && Before(b, a)) && !Before(a, a)
  {
    if a != [] && b != [] {
      BeforeTotal(a[1..], b[1..]);
      if a[0] == b[0] && a[1..] == b[1..] { assert a == [a[0]] + a[1..] && b == [b[0]] + b[1..]; }
    }
    if a != [] { BeforeTotal(a[1..], a[1..]); }
  }

  lemma {:induction false} BeforeChains(a: Text, b: Text, c: Text)
    requires Before(a, b) && Before(b, c)
    ensures Before(a, c)
  {
    if a != [] && a[0] == b[0] == c[0] { BeforeChains(a[1..], b[1..], c[1..]); }
  }

  predicate Ordered(s: seq<Field>) { forall i, j :: 0 <= i < j < |s| ==> Before(s[i].key, s[j].key) }

  predicate UniqueKeys(s: seq<Field>) { forall i, j :: 0 <= i < j < |s| ==> s[i].key != s[j].key }

  function InsertField(f: Field, s: seq<Field>): seq<Field> {
    if s == [] || !Before(s[0].key, f.key) then [f] + s else [s[0]] + InsertField(f, s[1..])
  }

  function SortFields(s: seq<Field>): seq<Field> { if s == [] then [] else InsertField(s[0], SortFields(s[1..])) }

  lemma {:induction false} InsertMembers(f: Field, s: seq<Field>)
    ensures forall g :: g in InsertField(f, s) <==> g == f || g in s
    ensures InsertField(f, s) != [] && (InsertField(f, s)[0] == f || (s != [] && InsertField(f, s)[0] == s[0]))
  {
    if s != [] && Before(s[0].key, f.key) {
      InsertMembers(f, s[1..]);
      assert forall g :: g in s <==> g == s[0] || g in s[1..];
    }
  }

  lemma ConsOrdered(f: Field, s: seq<Field>)
    requires Ordered(s) && (s != [] ==> Before(f.key, s[0].key))
    ensures Ordered([f] + s)
  {
    forall i, j | 0 <= i < j < |s| + 1 ensures Before(([f] + s)[i].key, ([f] + s)[j].key) {
      if i == 0 && j > 1 { BeforeChains(f.key, s[0].key, s[j - 1].key); }
    }
  }

  lemma {:induction false} InsertOrdered(f: Field, s: seq<Field>)
    requires Ordered(s) && forall i :: 0 <= i < |s| ==> s[i].key != f.key
    ensures Ordered(InsertField(f, s))
  {
    if s == [] {
    } else if Before(s[0].key, f.key) {
      InsertOrdered(f, s[1..]);
      InsertMembers(f, s[1..]);
      ConsOrdered(s[0], InsertField(f, s[1..]));
    } else {
      BeforeTotal(s[0].key, f.key);
      ConsOrdered(f, s);
    }
  }

  /** Sorting keeps the fields; with unique keys it orders them strictly. */
  lemma {:induction false} SortOrders(s: seq<Field>)
    ensures forall g :: g in SortFields(s) <==> g in s
    ensures UniqueKeys(s) ==> Ordered(SortFields(s))
  {
    if s != [] {
      SortOrders(s[1..]);
      InsertMembers(s[0], SortFields(s[1..]));
      assert forall g :: g in s <==> g == s[0] || g in s[1..];
      if UniqueKeys(s) {
        forall i | 0 <= i < |SortFields(s[1..])| ensures SortFields(s[1..])[i].key != s[0].key {
          assert SortFields(s[1..])[i] in s[1..];
        }
        InsertOrdered(s[0], SortFields(s[1..]));
      }
    }
  }

  lemma OrderedIsUnique(s: seq<Field>)
    requires Ordered(s)
    ensures UniqueKeys(s)
  {
    forall i, j | 0 <= i < j < |s| ensures s[i].key != s[j].key { BeforeTotal(s[i].key, s[j].key); }
  }

  ghost predicate SameFields(s: seq<Field>, t: seq<Field>) { forall f :: f in s <==> f in t }

  lemma BothEmpty(s: seq<Field>, t: seq<Field>)
    requires SameFields(s, t)
    ensures s == [] <==> t == []
  {
    if s != [] { assert s[0] in t; }
    if t != [] { assert t[0] in s; }
  }

  lemma OrderedHead(s: seq<Field>, f: Field)
    requires Ordered(s) && f in s
    ensures Ordered(s[1..]) && (f == s[0] || (f in s[1..] && Before(s[0].key, f.key)))
  {
  }

  lemma SameHead(s: seq<Field>, t: seq<Field>)
    requires Ordered(s) && Ordered(t) && SameFields(s, t) && s != []
    ensures t != [] && s[0] == t[0]
  {
    assert s[0] in t;
    assert t[0] in s;
    OrderedHead(s, t[0]);
    OrderedHead(t, s[0]);
    BeforeTotal(s[0].key, t[0].key);
  }

  lemma SameTail(s: seq<Field>, t: seq<Field>)
    requires Ordered(s) && Ordered(t) && SameFields(s, t) && s != [] && t != [] && s[0] == t[0]
    ensures Ordered(s[1..]) && Ordered(t[1..]) && SameFields(s[1..], t[1..])
  {
    forall f ensures f in s[1..] <==> f in t[1..] {
      if f in s[1..] || f in t[1..] {
        assert f in s && f in t;
        OrderedHead(s, f);
        OrderedHead(t, f);
        BeforeTotal(f.key, f.key);
      }
    }
  }

  /** Strictly ordered fields are determined by their members. */
  lemma {:induction false} OrderIsCanonical(s: seq<Field>, t: seq<Field>)
    requires Ordered(s) && Ordered(t) && SameFields(s, t)
    ensures s == t
  {
    BothEmpty(s, t);
    if s != [] {
      SameHead(s, t);
      SameTail(s, t);
      OrderIsCanonical(s[1..], t[1..]);
      assert s == [s[0]] + s[1..] && t == [t[0]] + t[1..];
    }
  }

  // ---- Object.fromEntries ----

  /** An array index as a property key: a plain decimal below 2^32 - 1. */
  predicate IsIndex(key: Text) {
    var r := ParseDigits(key);
    r.Done? && r.rest == [] && 0 <= r.value < 0xffff_ffff
  }

  /** Spelled out: the digits of a number below 2^32 - 1. */
  lemma IndexIs(key: Text)
    ensures IsIndex(key) <==> exists n: nat {:trigger Digits(n)} :: n < 4_294_967_295 && key == Digits(n)
  {
    if IsIndex(key) { DigitsRead(key); }
    if n: nat {:trigger Digits(n)} :| n < 4_294_967_295 && key == Digits(n) {
      DigitsBack(n, []);
      assert Digits(n) + [] == Digits(n);
    }
  }

  function IndexOf(key: Text): int
    requires IsIndex(key)
  { ParseDigits(key).value }

  lemma IndexIsOne(a: Text, b: Text)
    requires IsIndex(a) && IsIndex(b) && IndexOf(a) == IndexOf(b)
    ensures a == b
  {
    DigitsRead(a);
    DigitsRead(b);
  }

  /** Index keys come first, ascending. */
  function InsertIndex(f: Field, s: seq<Field>): seq<Field> {
    if s == [] || !IsIndex(s[0].key) || !IsIndex(f.key)
       || IndexOf(f.key) < IndexOf(s[0].key) then [f] + s
    else [s[0]] + InsertIndex(f, s[1..])
  }

  function Overwrite(f: Field, s: seq<Field>): seq<Field> {
    if s == [] then [] else if s[0].key == f.key then [f] + s[1..] else [s[0]] + Overwrite(f, s[1..])
  }

  predicate HasKey(s: seq<Field>, key: Text) { exists i :: 0 <= i < |s| && s[i].key == key }

  /** Defining a property, in the engine's property order. */
  function Define(s: seq<Field>, f: Field): seq<Field> {
    if HasKey(s, f.key) then Overwrite(f, s) else if IsIndex(f.key) then InsertIndex(f, s) else s + [f]
  }

  function FromEntries(entries: seq<Field>): seq<Field> {
    if entries == [] then [] else Define(FromEntries(entries[..|entries| - 1]), entries[|entries| - 1])
  }

  lemma {:induction false} IndexMembers(f: Field, s: seq<Field>)
    ensures forall g :: g in InsertIndex(f, s) <==> g == f || g in s
    ensures UniqueKeys(s) && !HasKey(s, f.key) ==> UniqueKeys(InsertIndex(f, s))
  {
    if s != [] {
      IndexMembers(f, s[1..]);
      assert forall g :: g in s <==> g == s[0] || g in s[1..];
      if UniqueKeys(s) && !HasKey(s, f.key) && InsertIndex(f, s) == [s[0]] + InsertIndex(f, s[1..]) {
        var rest := InsertIndex(f, s[1..]);
        assert !HasKey(s[1..], f.key);
        forall i | 0 <= i < |rest| ensures rest[i].key != s[0].key { assert rest[i] in rest; }
      }
    }
  }

  lemma KeysOfSame(s: seq<Field>, t: seq<Field>, key: Text)
    requires SameFields(s, t)
    ensures HasKey(s, key) <==> HasKey(t, key)
  {
    if i :| 0 <= i < |s| && s[i].key == key { assert s[i] in t; }
    if i :| 0 <= i < |t| && t[i].key == key { assert t[i] in s; }
  }

  /** Without repeated keys, the object holds exactly its entries. */
  lemma {:induction false} FromEntriesMembers(entries: seq<Field>)
    requires UniqueKeys(entries)
    ensures SameFields(FromEntries(entries), entries) && UniqueKeys(FromEntries(entries))
  {
    if entries != [] {
      var init, f := entries[..|entries| - 1], entries[|entries| - 1];
      FromEntriesMembers(init);
      assert entries == init + [f];
      KeysOfSame(FromEntries(init), init, f.key);
      IndexMembers(f, FromEntries(init));
    }
  }

  // ---- Canonical values ----

  ghost predicate WellFormed(v: Json)
    decreases v
  {
    match v
    case Arr(items) => forall i :: 0 <= i < |items| ==> WellFormed(items[i])
    case Obj(fields) => UniqueKeys(fields) && forall i :: 0 <= i < |fields| ==> WellFormed(fields[i].value)
    case _ => true
  }

  /** The same JSON value, whatever the order of keys. */
  ghost predicate Same(a: Json, b: Json)
    decreases a
  {
    match a
    case Arr(items) =>
      b.Arr? && |items| == |b.items| && forall i :: 0 <= i < |items| ==> Same(items[i], b.items[i])
    case Obj(fields) =>
      && b.Obj?
      && (forall key :: HasKey(fields, key) <==> HasKey(b.fields, key))
      && (forall i, j :: 0 <= i < |fields| && 0 <= j < |b.fields| && fields[i].key == b.fields[j].key ==>
            Same(fields[i].value, b.fields[j].value))
    case _ => a == b
  }

  /** Keys sorted at every level. The sort looks at keys only, so values may come first. */
  function Canonical(v: Json): Json
    decreases v
  {
    match v
    case Arr(items) => Arr(CanonicalItems(items))
    case Obj(fields) => Obj(FromEntries(SortFields(CanonicalFields(fields))))
    case _ => v
  }

  function CanonicalItems(items: seq<Json>): (r: seq<Json>)
    ensures |r| == |items| && forall i :: 0 <= i < |r| ==> r[i] == Canonical(items[i])
    decreases items
  { if items == [] then [] else [Canonical(items[0])] + CanonicalItems(items[1..]) }

  function CanonicalFields(fields: seq<Field>): (r: seq<Field>)
    ensures |r| == |fields|
    ensures forall i :: 0 <= i < |r| ==> r[i] == Field(fields[i].key, Canonical(fields[i].value))
    decreases fields
  {
    if fields == [] then []
    else [Field(fields[0].key, Canonical(fields[0].value))] + CanonicalFields(fields[1..])
  }

  lemma {:induction false} InsertThenMap(f: Field, s: seq<Field>)
    ensures CanonicalFields(InsertField(f, s)) == InsertField(Field(f.key, Canonical(f.value)), CanonicalFields(s))
  {
    hide Canonical, Before;
    if s != [] {
      InsertThenMap(f, s[1..]);
      if Before(s[0].key, f.key) {
        assert InsertField(f, s) == [s[0]] + InsertField(f, s[1..]);
      } else {
        assert InsertField(f, s) == [f] + s;
      }
    }
  }

  /** The source sorts the entries and then maps their values: the same fields. */
  lemma {:induction false} SortThenMap(s: seq<Field>)
    ensures CanonicalFields(SortFields(s)) == SortFields(CanonicalFields(s))
  {
    hide Canonical, InsertField;
    if s != [] {
      SortThenMap(s[1..]);
      InsertThenMap(s[0], SortFields(s[1..]));
    }
  }

  lemma CanonicalKeys(fields: seq<Field>)
    ensures UniqueKeys(fields) ==> UniqueKeys(CanonicalFields(fields))
  {
  }

  /** An object's canonical fields are its mapped fields, with no key lost or repeated. */
  lemma CanonicalMembers(fields: seq<Field>)
    requires UniqueKeys(fields)
    ensures UniqueKeys(CanonicalFields(fields)) && Ordered(SortFields(CanonicalFields(fields)))
    ensures SameFields(FromEntries(SortFields(CanonicalFields(fields))), CanonicalFields(fields))
    ensures UniqueKeys(FromEntries(SortFields(CanonicalFields(fields))))
  {
    CanonicalKeys(fields);
    hide Canonical, CanonicalFields, FromEntries, SortFields, Before;
    SortOrders(CanonicalFields(fields));
    OrderedIsUnique(SortFields(CanonicalFields(fields)));
    FromEntriesMembers(SortFields(CanonicalFields(fields)));
  }

  lemma {:induction false} FromEntriesKeepsOrder(entries: seq<Field>)
    requires UniqueKeys(entries) && forall i :: 0 <= i < |entries| ==> !IsIndex(entries[i].key)
    ensures FromEntries(entries) == entries
  {
    hide IsIndex;
    if entries != [] {
      var init, f := entries[..|entries| - 1], entries[|entries| - 1];
      FromEntriesKeepsOrder(init);
      assert entries == init + [f] && !HasKey(init, f.key);
    }
  }

  /** The engine's order of an object's keys: index keys first, ascending, then the others, here in
      code-unit order. */
  predicate KeyBefore(a: Text, b: Text) {
    if IsIndex(a) && IsIndex(b) then IndexOf(a) < IndexOf(b)
    else IsIndex(a) || (!IsIndex(b) && Before(a, b))
  }

  predicate EngineOrdered(s: seq<Field>) { forall i, j :: 0 <= i < j < |s| ==> KeyBefore(s[i].key, s[j].key) }

  lemma KeyBeforeChains(a: Text, b: Text, c: Text)
    requires KeyBefore(a, b) && KeyBefore(b, c)
    ensures KeyBefore(a, c)
  {
    hide IsIndex, IndexOf;
    if !IsIndex(a) { BeforeChains(a, b, c); }
  }

  lemma ConsEngineOrdered(f: Field, s: seq<Field>)
    requires EngineOrdered(s) && (s != [] ==> KeyBefore(f.key, s[0].key))
    ensures EngineOrdered([f] + s)
  {
    hide KeyBefore;
    forall i, j | 0 <= i < j < |s| + 1 ensures KeyBefore(([f] + s)[i].key, ([f] + s)[j].key) {
      if i == 0 && j > 1 { KeyBeforeChains(f.key, s[0].key, s[j - 1].key); }
    }
  }

  lemma {:induction false} InsertIndexOrdered(f: Field, s: seq<Field>)
    requires EngineOrdered(s) && IsIndex(f.key) && forall i :: 0 <= i < |s| ==> s[i].key != f.key
    ensures EngineOrdered(InsertIndex(f, s))
    ensures InsertIndex(f, s) != []
    ensures InsertIndex(f, s)[0] == f || (s != [] && InsertIndex(f, s)[0] == s[0])
  {
    hide IsIndex, IndexOf, Before;
    if s != [] && IsIndex(s[0].key) && IndexOf(f.key) >= IndexOf(s[0].key) {
      if IndexOf(f.key) == IndexOf(s[0].key) { IndexIsOne(f.key, s[0].key); }
      InsertIndexOrdered(f, s[1..]);
      ConsEngineOrdered(s[0], InsertIndex(f, s[1..]));
    } else {
      ConsEngineOrdered(f, s);
    }
  }

  lemma AppendOrdered(s: seq<Field>, f: Field)
    requires EngineOrdered(s) && forall g :: g in s ==> KeyBefore(g.key, f.key)
    ensures EngineOrdered(s + [f])
  {
    hide KeyBefore;
  }

  /** An object made of entries in code-unit order has its keys in the engine's order. */
  lemma {:induction false} FromEntriesOrdered(entries: seq<Field>)
    requires Ordered(entries) && UniqueKeys(entries)
    ensures EngineOrdered(FromEntries(entries))
  {
    if entries != [] {
      var init, f := entries[..|entries| - 1], entries[|entries| - 1];
      FromEntriesOrdered(init);
      FromEntriesMembers(init);
      var s := FromEntries(init);
      assert !HasKey(s, f.key) by { KeysOfSame(s, init, f.key); }
      assert FromEntries(entries) == Define(s, f);
      forall g | g in s ensures Before(g.key, f.key) { assert g in init; }
      hide FromEntries, Before, IsIndex, IndexOf, Ordered, UniqueKeys;
      if IsIndex(f.key) {
        assert forall i :: 0 <= i < |s| ==> s[i].key != f.key;
        InsertIndexOrdered(f, s);
      } else {
        AppendOrdered(s, f);
      }
    }
  }

  /** Main result on order: canonical keys are in the engine's order, at every object. */
  lemma CanonicalKeysOrdered(fields: seq<Field>)
    requires UniqueKeys(fields)
    ensures Canonical(Obj(fields)).Obj? && EngineOrdered(Canonical(Obj(fields)).fields)
  {
    var x := CanonicalFields(fields);
    assert Canonical(Obj(fields)) == Obj(FromEntries(SortFields(x)));
    hide Canonical, CanonicalFields, SortFields, FromEntries, Ordered, EngineOrdered;
    CanonicalMembers(fields);
    OrderedIsUnique(SortFields(x));
    FromEntriesOrdered(SortFields(x));
  }

  /** Spelled out: canonical form keeps scalars, arrays place by place and objects key by key. */
  lemma CanonicalIs(v: Json)
    requires v.Obj? ==> UniqueKeys(v.fields)
    ensures match v
      case Arr(items) =>
        && Canonical(v).Arr? && |Canonical(v).items| == |items|
        && forall i :: 0 <= i < |items| ==> Canonical(v).items[i] == Canonical(items[i])
      case Obj(fields) =>
        && Canonical(v).Obj? && UniqueKeys(Canonical(v).fields)
        && forall f :: f in Canonical(v).fields <==> exists g :: g in fields && f == Field(g.key, Canonical(g.value))
      case _ => Canonical(v) == v
  {
    if v.Obj? {
      CanonicalMembers(v.fields);
      var x := CanonicalFields(v.fields);
      assert Canonical(v) == Obj(FromEntries(SortFields(x)));
      hide FromEntries, SortFields, Canonical, UniqueKeys;
      forall f ensures f in x <==> exists g :: g in v.fields && f == Field(g.key, Canonical(g.value)) {
        if f in x {
          var i :| 0 <= i < |x| && x[i] == f;
          assert v.fields[i] in v.fields;
        }
        if g :| g in v.fields && f == Field(g.key, Canonical(g.value)) {
          var i :| 0 <= i < |v.fields| && v.fields[i] == g;
          assert x[i] == f;
        }
      }
    }
  }

  lemma SortedNames(s: seq<Field>)
    requires forall i :: 0 <= i < |s| ==> !IsIndex(s[i].key)
    ensures forall i :: 0 <= i < |SortFields(s)| ==> !IsIndex(SortFields(s)[i].key)
  {
    SortOrders(s);
    hide IsIndex, SortFields;
    forall i | 0 <= i < |SortFields(s)| ensures !IsIndex(SortFields(s)[i].key) { assert SortFields(s)[i] in s; }
  }

  /** Without index keys, the canonical keys are in code-unit order. */
  lemma CanonicalOrder(fields: seq<Field>)
    requires UniqueKeys(fields) && forall i :: 0 <= i < |fields| ==> !IsIndex(fields[i].key)
    ensures Canonical(Obj(fields)).Obj? && Ordered(Canonical(Obj(fields)).fields)
    ensures SameFields(Canonical(Obj(fields)).fields, CanonicalFields(fields))
  {
    var x := CanonicalFields(fields);
    assert Canonical(Obj(fields)) == Obj(FromEntries(SortFields(x)));
    hide Canonical, CanonicalFields, SortFields, FromEntries, Ordered, SameFields, IsIndex;
    CanonicalMembers(fields);
    SortedNames(x);
    OrderedIsUnique(SortFields(x));
    FromEntriesKeepsOrder(SortFields(x));
  }

  // ---- Same values, same text ----

  lemma KeyAt(s: seq<Field>, key: Text) returns (i: nat)
    requires HasKey(s, key)
    ensures i < |s| && s[i].key == key
  {
    i :| i < |s| && s[i].key == key;
  }

  /** Objects that agree key by key have the same mapped fields. */
  lemma {:induction false} SameMapped(a: seq<Field>, b: seq<Field>)
    requires Same(Obj(a), Obj(b)) && WellFormed(Obj(a)) && WellFormed(Obj(b))
    ensures SameFields(CanonicalFields(a), CanonicalFields(b))
    decreases Obj(a), 0
  {
    hide Canonical;
    forall f ensures f in CanonicalFields(a) <==> f in CanonicalFields(b) {
      if i :| 0 <= i < |a| && f == CanonicalFields(a)[i] {
        assert HasKey(a, a[i].key);
        var j := KeyAt(b, a[i].key);
        SameIsCanonical(a[i].value, b[j].value);
        assert CanonicalFields(b)[j] == f;
      }
      if j :| 0 <= j < |b| && f == CanonicalFields(b)[j] {
        assert HasKey(b, b[j].key);
        var i := KeyAt(a, b[j].key);
        SameIsCanonical(a[i].value, b[j].value);
        assert CanonicalFields(a)[i] == f;
      }
    }
  }

  lemma {:induction false} SameIsCanonical(a: Json, b: Json)
    requires Same(a, b) && WellFormed(a) && WellFormed(b)
    ensures Canonical(a) == Canonical(b)
    decreases a, 1
  {
    match a
    case Arr(items) =>
      forall i | 0 <= i < |items| ensures Canonical(items[i]) == Canonical(b.items[i]) {
        SameIsCanonical(items[i], b.items[i]);
      }
    case Obj(fields) =>
      SameMapped(fields, b.fields);
      hide CanonicalFields, FromEntries, SortFields, WellFormed, Same;
      ObjectKeys(a);
      ObjectKeys(b);
      CanonicalMembers(fields);
      CanonicalMembers(b.fields);
      SortOrders(CanonicalFields(fields));
      SortOrders(CanonicalFields(b.fields));
      OrderIsCanonical(SortFields(CanonicalFields(fields)), SortFields(CanonicalFields(b.fields)));
    case _ =>
  }

  lemma ObjectKeys(v: Json)
    requires WellFormed(v) && v.Obj?
    ensures UniqueKeys(v.fields)
  {
  }

  lemma MappedAt(fields: seq<Field>, other: seq<Field>, i: nat)
    requires i < |fields| && CanonicalFields(fields)[i] in CanonicalFields(other)
    ensures HasKey(other, fields[i].key)
    ensures UniqueKeys(other) ==>
      forall j :: 0 <= j < |other| && other[j].key == fields[i].key ==>
        Canonical(fields[i].value) == Canonical(other[j].value)
  {
    hide Canonical;
    var j :| 0 <= j < |other| && CanonicalFields(other)[j] == CanonicalFields(fields)[i];
    assert other[j].key == fields[i].key;
  }

  /** Objects with the same canonical fields have the same keys, with the same canonical values. */
  lemma MappedSame(fields: seq<Field>, other: seq<Field>)
    requires UniqueKeys(fields) && UniqueKeys(other)
    requires SameFields(CanonicalFields(fields), CanonicalFields(other))
    ensures forall key :: HasKey(fields, key) <==> HasKey(other, key)
    ensures forall i, j :: 0 <= i < |fields| && 0 <= j < |other| && fields[i].key == other[j].key ==>
      Canonical(fields[i].value) == Canonical(other[j].value)
  {
    hide Canonical, CanonicalFields, UniqueKeys;
    forall i: nat | i < |fields|
      ensures HasKey(other, fields[i].key)
      ensures forall j :: 0 <= j < |other| && other[j].key == fields[i].key ==>
        Canonical(fields[i].value) == Canonical(other[j].value)
    {
      assert CanonicalFields(fields)[i] in CanonicalFields(other);
      MappedAt(fields, other, i);
    }
    forall j: nat | j < |other| ensures HasKey(fields, other[j].key) {
      assert CanonicalFields(other)[j] in CanonicalFields(fields);
      MappedAt(other, fields, j);
    }
  }

  lemma SameCanonicalFields(fields: seq<Field>, other: seq<Field>)
    requires UniqueKeys(fields) && UniqueKeys(other) && Canonical(Obj(fields)) == Canonical(Obj(other))
    ensures SameFields(CanonicalFields(fields), CanonicalFields(other))
  {
    hide CanonicalFields, FromEntries, SortFields, UniqueKeys;
    CanonicalMembers(fields);
    CanonicalMembers(other);
  }

  lemma {:induction false} CanonicalIsSame(a: Json, b: Json)
    requires Canonical(a) == Canonical(b) && WellFormed(a) && WellFormed(b)
    ensures Same(a, b)
    decreases a
  {
    match a
    case Arr(items) =>
      assert b.Arr?;
      forall i | 0 <= i < |items| ensures Same(items[i], b.items[i]) {
        assert CanonicalItems(items)[i] == CanonicalItems(b.items)[i];
        CanonicalIsSame(items[i], b.items[i]);
      }
    case Obj(fields) =>
      assert b == Obj(b.fields);
      SameCanonicalFields(fields, b.fields);
      MappedSame(fields, b.fields);
      hide Canonical, CanonicalFields, HasKey, SameFields;
      forall i, j | 0 <= i < |fields| && 0 <= j < |b.fields| && fields[i].key == b.fields[j].key
        ensures Same(fields[i].value, b.fields[j].value)
      {
        CanonicalIsSame(fields[i].value, b.fields[j].value);
      }
    case _ =>
  }

  /** Main result: canonical text is equal exactly for values that agree up to key order. */
  lemma CanonicalTextIff(a: Json, b: Json)
    requires WellFormed(a) && WellFormed(b)
    ensures Print(Canonical(a)) == Print(Canonical(b)) <==> Same(a, b)
  {
    PrintIsInjective(Canonical(a), Canonical(b));
    if Same(a, b) { SameIsCanonical(a, b); }
    if Canonical(a) == Canonical(b) { CanonicalIsSame(a, b); }
  }

  // ---- The payload ----

  const SCHEMA_KEY: Text := Units("curriculumSchema")
  const LESSON_KEY: Text := Units("lessonId")
  const TAB_KEY: Text := Units("tab")
  const ITEM_KEY: Text := Units("sourceItem")
  const DIGEST_KEY: Text := Units("contractSha256")
  const SCHEMA: Text := Units("fe2o3-tutorial-curriculum-obligations-v2")

  function Filter(fields: seq<Field>): (r: seq<Field>)
    ensures forall f :: f in r <==> f in fields && f.key != DIGEST_KEY
  {
    if fields == [] then []
    else
      assert forall f :: f in fields <==> f == fields[0] || f in fields[1..];
      (if fields[0].key != DIGEST_KEY then [fields[0]] else []) + Filter(fields[1..])
  }

  /** The source item without its own digest. */
  function Without(item: seq<Field>): Json { Obj(FromEntries(Filter(item))) }

  function PayloadValue(lessonId: Text, tab: Json, item: seq<Field>): Json {
    Obj([Field(SCHEMA_KEY, Str(SCHEMA)), Field(LESSON_KEY, Str(lessonId)), Field(TAB_KEY, tab),
         Field(ITEM_KEY, Without(item))])
  }

  /** What is hashed, after its domain prefix; `tab` is the projected tab. */
  function Payload(lessonId: Text, tab: Json, item: seq<Field>): Text {
    Print(Canonical(PayloadValue(lessonId, tab, item)))
  }

  lemma {:induction false} FilterUnique(fields: seq<Field>)
    requires UniqueKeys(fields)
    ensures UniqueKeys(Filter(fields))
  {
    if fields != [] {
      FilterUnique(fields[1..]);
      forall i | 0 <= i < |Filter(fields[1..])| ensures Filter(fields[1..])[i].key != fields[0].key {
        assert Filter(fields[1..])[i] in fields[1..];
      }
    }
  }

  lemma WithoutWellFormed(item: seq<Field>)
    requires WellFormed(Obj(item))
    ensures WellFormed(Without(item))
    ensures forall f :: f in Without(item).fields <==> f in item && f.key != DIGEST_KEY
  {
    FilterUnique(item);
    FromEntriesMembers(Filter(item));
    var fields := Without(item).fields;
    forall i | 0 <= i < |fields| ensures WellFormed(fields[i].value) { assert fields[i] in item; }
  }

  lemma KeysDiffer()
    ensures |SCHEMA_KEY| == 16 && |LESSON_KEY| == 8 && |TAB_KEY| == 3 && |ITEM_KEY| == 10
  {
  }

  lemma PayloadKeys(lessonId: Text, tab: Json, item: seq<Field>)
    ensures UniqueKeys(PayloadValue(lessonId, tab, item).fields)
  {
    KeysDiffer();
    hide Without;
  }

  lemma PayloadWellFormed(lessonId: Text, tab: Json, item: seq<Field>)
    requires WellFormed(tab) && WellFormed(Obj(item))
    ensures WellFormed(PayloadValue(lessonId, tab, item))
  {
    PayloadKeys(lessonId, tab, item);
    WithoutWellFormed(item);
    hide Without, UniqueKeys;
    assert WellFormed(Str(SCHEMA)) && WellFormed(Str(lessonId));
  }

  /** With the keys in the same places, objects agree when their values do, place by place. */
  lemma SameByPlace(a: seq<Field>, b: seq<Field>)
    requires |a| == |b| && UniqueKeys(a) && forall i :: 0 <= i < |a| ==> a[i].key == b[i].key
    ensures Same(Obj(a), Obj(b)) <==> forall i :: 0 <= i < |a| ==> Same(a[i].value, b[i].value)
  {
    assert forall key :: HasKey(a, key) <==> HasKey(b, key) by {
      forall key ensures HasKey(a, key) <==> HasKey(b, key) {
        if HasKey(a, key) { var i := KeyAt(a, key); assert b[i].key == key; }
        if HasKey(b, key) { var i := KeyAt(b, key); assert a[i].key == key; }
      }
    }
    hide HasKey;
    if forall i :: 0 <= i < |a| ==> Same(a[i].value, b[i].value) {
      forall i, j | 0 <= i < |a| && 0 <= j < |b| && a[i].key == b[j].key ensures Same(a[i].value, b[j].value) {
        assert i == j;
      }
    }
  }

  lemma SameText(x: Text, y: Text)
    ensures Same(Str(x), Str(y)) <==> x == y
  {
  }

  lemma SamePayload(l1: Text, t1: Json, i1: seq<Field>, l2: Text, t2: Json, i2: seq<Field>)
    ensures Same(PayloadValue(l1, t1, i1), PayloadValue(l2, t2, i2)) <==>
      l1 == l2 && Same(t1, t2) && Same(Without(i1), Without(i2))
  {
    hide Without, UniqueKeys, Same;
    PayloadKeys(l1, t1, i1);
    SameText(SCHEMA, SCHEMA);
    SameText(l1, l2);
    var a, b := PayloadValue(l1, t1, i1).fields, PayloadValue(l2, t2, i2).fields;
    SameByPlace(a, b);
    FourPlaces(a, b);
  }

  lemma FourPlaces(a: seq<Field>, b: seq<Field>)
    requires |a| == |b| == 4
    ensures (forall i :: 0 <= i < |a| ==> Same(a[i].value, b[i].value)) <==>
      && Same(a[0].value, b[0].value) && Same(a[1].value, b[1].value)
      && Same(a[2].value, b[2].value) && Same(a[3].value, b[3].value)
  {
    hide Same;
  }

  /** Main result: two inputs hash the same payload exactly when the lesson id, the projected
      tab and the source item without its digest agree as JSON values, whatever their key order. */
  lemma PayloadIff(l1: Text, t1: Json, i1: seq<Field>, l2: Text, t2: Json, i2: seq<Field>)
    requires WellFormed(t1) && WellFormed(Obj(i1)) && WellFormed(t2) && WellFormed(Obj(i2))
    ensures Payload(l1, t1, i1) == Payload(l2, t2, i2) <==>
      l1 == l2 && Same(t1, t2) && Same(Without(i1), Without(i2))
  {
    hide PayloadValue, Without, Print, Canonical, Same;
    PayloadWellFormed(l1, t1, i1);
    PayloadWellFormed(l2, t2, i2);
    CanonicalTextIff(PayloadValue(l1, t1, i1), PayloadValue(l2, t2, i2));
    SamePayload(l1, t1, i1, l2, t2, i2);
  }

  /** Main result: the payload is printable ASCII and parses back to its canonical value. */
  lemma PayloadParses(lessonId: Text, tab: Json, item: seq<Field>)
    ensures AllPrintable(Payload(lessonId, tab, item))
    ensures Parse(Payload(lessonId, tab, item)) == Done(Canonical(PayloadValue(lessonId, tab, item)), [])
  {
    PrintParses(Canonical(PayloadValue(lessonId, tab, item)));
  }

  lemma NamesOrdered()
    ensures !IsIndex(SCHEMA_KEY) && !IsIndex(LESSON_KEY) && !IsIndex(ITEM_KEY) && !IsIndex(TAB_KEY)
    ensures Before(SCHEMA_KEY, LESSON_KEY) && Before(LESSON_KEY, ITEM_KEY) && Before(ITEM_KEY, TAB_KEY)
    ensures Before(SCHEMA_KEY, ITEM_KEY) && Before(SCHEMA_KEY, TAB_KEY) && Before(LESSON_KEY, TAB_KEY)
  {
    assert SCHEMA_KEY[0] == 'c' as int && LESSON_KEY[0] == 'l' as int;
    assert ITEM_KEY[0] == 's' as int && TAB_KEY[0] == 't' as int;
  }

  lemma FourFields(a: Field, b: Field, c: Field, d: Field)
    requires a.key == SCHEMA_KEY && b.key == LESSON_KEY && c.key == ITEM_KEY && d.key == TAB_KEY
    ensures Ordered([a, b, c, d]) && UniqueKeys([a, b, d, c])
    ensures forall f :: f in [a, b, c, d] <==> f in [a, b, d, c]
  {
    NamesOrdered();
    assert Ordered([a, b, c, d]) by { hide Before; }
    OrderedIsUnique([a, b, c, d]);
    BeforeTotal(ITEM_KEY, TAB_KEY);
    hide Before;
  }

  /** The value hashed: its four members in canonical order. */
  lemma CanonicalPayload(lessonId: Text, tab: Json, item: seq<Field>)
    ensures Canonical(PayloadValue(lessonId, tab, item)) ==
      Obj([Field(SCHEMA_KEY, Str(SCHEMA)), Field(LESSON_KEY, Str(lessonId)),
           Field(ITEM_KEY, Canonical(Without(item))), Field(TAB_KEY, Canonical(tab))])
  {
    var fields := PayloadValue(lessonId, tab, item).fields;
    var a, b := Field(SCHEMA_KEY, Str(SCHEMA)), Field(LESSON_KEY, Str(lessonId));
    var c, d := Field(ITEM_KEY, Canonical(Without(item))), Field(TAB_KEY, Canonical(tab));
    NamesOrdered();
    PayloadKeys(lessonId, tab, item);
    assert Canonical(Str(SCHEMA)) == Str(SCHEMA) && Canonical(Str(lessonId)) == Str(lessonId);
    assert CanonicalFields(fields) == [a, b, d, c] by { hide Canonical, Without; }
    hide Canonical, CanonicalFields, Without, IsIndex, Before, UniqueKeys;
    FourFields(a, b, c, d);
    CanonicalOrder(fields);
    OrderIsCanonical(Canonical(Obj(fields)).fields, [a, b, c, d]);
  }

  /** The canonical form of a member of the item other than its digest. */
  ghost predicate IsSourceMember(item: seq<Field>, f: Field) {
    exists g :: g in item && g.key != Units("contractSha256") && f == Field(g.key, Canonical(g.value))
  }

  /** Main result, spelled out: the payload reads as an object of exactly four members, in this order,
      the source item without its own digest among them. */
  lemma PayloadIs(lessonId: Text, tab: Json, item: seq<Field>) returns (source: seq<Field>)
    requires UniqueKeys(item)
    ensures Parse(Payload(lessonId, tab, item)) ==
      Done(Obj([Field(Units("curriculumSchema"), Str(Units("fe2o3-tutorial-curriculum-obligations-v2"))),
                Field(Units("lessonId"), Str(lessonId)),
                Field(Units("sourceItem"), Obj(source)),
                Field(Units("tab"), Canonical(tab))]), [])
    ensures UniqueKeys(source) && forall f :: f in source <==> IsSourceMember(item, f)
  {
    PayloadParses(lessonId, tab, item);
    CanonicalPayload(lessonId, tab, item);
    source := Canonical(Without(item)).fields;
    CanonicalSource(item);
    hide Canonical, PayloadValue, Print, Without, UniqueKeys, Parse, IsSourceMember;
  }

  lemma CanonicalSource(item: seq<Field>)
    requires UniqueKeys(item)
    ensures Canonical(Without(item)).Obj? && UniqueKeys(Canonical(Without(item)).fields)
    ensures forall f :: f in Canonical(Without(item)).fields <==> IsSourceMember(item, f)
  {
    FilterUnique(item);
    FromEntriesMembers(Filter(item));
    CanonicalIs(Without(item));
    assert DIGEST_KEY == Units("contractSha256");
    hide Canonical, FromEntries, UniqueKeys, Units;
    assert forall g :: g in Without(item).fields <==> g in item && g.key != DIGEST_KEY;
  }
}
