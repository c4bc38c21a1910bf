/** JSON values with their members in order, as a document lists them, and what is left of them when the
order is forgotten. */
module Json {
  import opened Wrappers

  /** A finite floating-point number is known by its bits. */
  datatype Number = Integer(int) | Float(bits: nat)

  datatype Json =
    | Null
    | Bool(bool)
    | Num(Number)
    | Str(string)
    | Arr(items: seq<Json>)
    | Obj(members: seq<Member>)

  datatype Member = Member(key: string, value: Json)

  /** What a JSON value means: objects are unordered at every depth (section 4 of RFC 8259), and of two
      members with one key the later counts, as it does when they are put in a map. */
  datatype Tree =
    | TNull
    | TBool(bool)
    | TNum(Number)
    | TStr(string)
    | TArr(items: seq<Tree>)
    | TObj(members: map<string, Tree>)

  function Meaning(json: Json): Tree {
    match json
    case Null => TNull
    case Bool(b) => TBool(b)
    case Num(n) => TNum(n)
    case Str(s) => TStr(s)
    case Arr(items) => TArr(ItemsMeaning(items))
    case Obj(members) => TObj(MembersMeaning(members))
  }

  function ItemsMeaning(items: seq<Json>): (trees: seq<Tree>)
    ensures |trees| == |items|
  {
    if items == [] then [] else ItemsMeaning(items[..|items| - 1]) + [Meaning(items[|items| - 1])]
  }

  function MembersMeaning(members: seq<Member>): map<string, Tree> {
    if members == [] then map[]
    else
      var last := members[|members| - 1];
      MembersMeaning(members[..|members| - 1])[last.key := Meaning(last.value)]
  }

  // ----- the order of keys -----

  predicate Before(a: string, b: string) {
    b != [] && (a == [] || a[0] < b[0] || (a[0] == b[0] && Before(a[1..], b[1..])))
  }

  lemma {:induction false} OrderIsTotal(a: string, b: string)
    ensures a == b || Before(a, b) || Before(b, a)
    ensures !(Before(a, b) && Before(b, a)) && !Before(a, a)
  {
    if a != [] && b != [] {
      OrderIsTotal(a[1..], b[1..]);
      if a[0] == b[0] && a[1..] == b[1..] {
        assert a == [a[0]] + a[1..] && b == [b[0]] + b[1..];
      }
    }
    if a != [] {
      NotBeforeItself(a);
    }
  }

  lemma {:induction false} NotBeforeItself(a: string)
    ensures !Before(a, a)
  {
    if a != [] {
      NotBeforeItself(a[1..]);
    }
  }

  lemma {:induction false} OrderIsTransitive(a: string, b: string, c: string)
    requires Before(a, b) && Before(b, c)
    ensures Before(a, c)
  {
    if a != [] && a[0] == b[0] && b[0] == c[0] {
      OrderIsTransitive(a[1..], b[1..], c[1..]);
    }
  }

  predicate Sorted(members: seq<Member>) {
    forall i, j | 0 <= i < j < |members| :: Before(members[i].key, members[j].key)
  }

  /** Keys are in order, without repetition, at every depth. */
  predicate Canonical(json: Json) {
    match json
    case Arr(items) => forall i | 0 <= i < |items| :: Canonical(items[i])
    case Obj(members) => Sorted(members) && forall i | 0 <= i < |members| :: Canonical(members[i].value)
    case _ => true
  }

  predicate CanonicalMembers(members: seq<Member>) {
    Sorted(members) && forall i | 0 <= i < |members| :: Canonical(members[i].value)
  }

  // ----- putting a value in canonical form -----

  function Inserted(members: seq<Member>, m: Member): seq<Member> {
    if members == [] then [m]
    else
      var last := members[|members| - 1];
      if last.key == m.key then members[..|members| - 1] + [m]
      else if Before(last.key, m.key) then members + [m]
      else Inserted(members[..|members| - 1], m) + [last]
  }

  function Canon(json: Json): Json {
    match json
    case Arr(items) => Arr(CanonItems(items))
    case Obj(members) => Obj(CanonMembers(members))
    case _ => json
  }

  function CanonItems(items: seq<Json>): (canon: seq<Json>)
    ensures |canon| == |items|
  {
    if items == [] then [] else CanonItems(items[..|items| - 1]) + [Canon(items[|items| - 1])]
  }

  function CanonMembers(members: seq<Member>): seq<Member> {
    if members == [] then []
    else
      var last := members[|members| - 1];
      Inserted(CanonMembers(members[..|members| - 1]), Member(last.key, Canon(last.value)))
  }

  // ----- canonical forms stand for meanings -----

  lemma {:induction false} InsertedKeepsOrder(members: seq<Member>, m: Member)
    requires CanonicalMembers(members) && Canonical(m.value)
    ensures CanonicalMembers(Inserted(members, m))
    ensures forall bound: string ::
              (forall i | 0 <= i < |members| :: Before(members[i].key, bound)) && Before(m.key, bound)
              ==> forall i | 0 <= i < |Inserted(members, m)| :: Before(Inserted(members, m)[i].key, bound)
  {
    if members != [] {
      var front, last := members[..|members| - 1], members[|members| - 1];
      if last.key != m.key && Before(last.key, m.key) {
        forall i | 0 <= i < |members|
          ensures Before(members[i].key, m.key)
        {
          if i < |members| - 1 {
            OrderIsTransitive(members[i].key, last.key, m.key);
          }
        }
      } else if last.key != m.key {
        OrderIsTotal(last.key, m.key);
        InsertedKeepsOrder(front, m);
      }
    }
  }

  lemma {:induction false} InsertedMeans(members: seq<Member>, m: Member)
    requires Sorted(members)
    ensures MembersMeaning(Inserted(members, m)) == MembersMeaning(members)[m.key := Meaning(m.value)]
  {
    if members != [] {
      var front, last := members[..|members| - 1], members[|members| - 1];
      if last.key == m.key {
        assert (front + [m])[..|members| - 1] == front;
      } else if Before(last.key, m.key) {
        assert (members + [m])[..|members|] == members;
      } else {
        var moved := Inserted(front, m);
        assert (moved + [last])[..|moved|] == moved;
        InsertedMeans(front, m);
      }
    }
  }

  lemma {:induction false} CanonIsCanonical(json: Json)
    ensures Canonical(Canon(json))
    ensures Meaning(Canon(json)) == Meaning(json)
  {
    match json
    case Arr(items) => CanonItemsAre(items);
    case Obj(members) => CanonMembersAre(members);
    case _ =>
  }

  lemma {:induction false} CanonItemsAre(items: seq<Json>)
    ensures forall i | 0 <= i < |items| :: Canonical(CanonItems(items)[i])
    ensures ItemsMeaning(CanonItems(items)) == ItemsMeaning(items)
  {
    if items != [] {
      var front, last := items[..|items| - 1], items[|items| - 1];
      CanonItemsAre(front);
      CanonIsCanonical(last);
      assert (CanonItems(front) + [Canon(last)])[..|items| - 1] == CanonItems(front);
    }
  }

  lemma {:induction false} CanonMembersAre(members: seq<Member>)
    ensures CanonicalMembers(CanonMembers(members))
    ensures MembersMeaning(CanonMembers(members)) == MembersMeaning(members)
  {
    if members != [] {
      var front, last := members[..|members| - 1], members[|members| - 1];
      CanonMembersAre(front);
      CanonIsCanonical(last.value);
      InsertedKeepsOrder(CanonMembers(front), Member(last.key, Canon(last.value)));
      InsertedMeans(CanonMembers(front), Member(last.key, Canon(last.value)));
    }
  }

  lemma {:induction false} MeaningKeys(members: seq<Member>, key: string)
    ensures key in MembersMeaning(members) <==> exists i | 0 <= i < |members| :: members[i].key == key
  {
    if members != [] {
      var front := members[..|members| - 1];
      MeaningKeys(front, key);
      assert members == front + [members[|members| - 1]];
    }
  }

  /** The greatest key of a sorted object comes last. */
  lemma {:induction false} LastKey(a: seq<Member>, b: seq<Member>)
    requires Sorted(a) && Sorted(b) && a != [] && b != [] && MembersMeaning(a) == MembersMeaning(b)
    ensures a[|a| - 1].key == b[|b| - 1].key
  {
    var x, y := a[|a| - 1].key, b[|b| - 1].key;
    MeaningKeys(a, x);
    MeaningKeys(b, x);
    MeaningKeys(a, y);
    MeaningKeys(b, y);
    OrderIsTotal(x, y);
  }

  /** Without its last member, a sorted object means the rest of the map. */
  lemma {:induction false} WithoutLast(a: seq<Member>)
    requires Sorted(a) && a != []
    ensures MembersMeaning(a[..|a| - 1]) == MembersMeaning(a) - {a[|a| - 1].key}
  {
    var key := a[|a| - 1].key;
    MeaningKeys(a[..|a| - 1], key);
    NotBeforeItself(key);
  }

  lemma {:induction false} EmptyMeaning(members: seq<Member>)
    ensures MembersMeaning(members) == map[] <==> members == []
  {
    if members != [] {
      assert members[|members| - 1].key in MembersMeaning(members);
    }
  }

  lemma {:induction false} SameMembers(a: seq<Member>, b: seq<Member>)
    requires CanonicalMembers(a) && CanonicalMembers(b) && MembersMeaning(a) == MembersMeaning(b)
    ensures a == b
  {
    EmptyMeaning(a);
    EmptyMeaning(b);
    if a != [] {
      var x, y := a[|a| - 1], b[|b| - 1];
      LastKey(a, b);
      WithoutLast(a);
      WithoutLast(b);
      assert MembersMeaning(a)[x.key] == MembersMeaning(b)[x.key];
      SameMeaningSameForm(x.value, y.value);
      SameMembers(a[..|a| - 1], b[..|b| - 1]);
      assert a == a[..|a| - 1] + [x] && b == b[..|b| - 1] + [y];
    }
  }

  lemma {:induction false} SameItems(a: seq<Json>, b: seq<Json>)
    requires ItemsMeaning(a) == ItemsMeaning(b)
    requires (forall i | 0 <= i < |a| :: Canonical(a[i])) && (forall i | 0 <= i < |b| :: Canonical(b[i]))
    ensures a == b
  {
    if a == [] || b == [] {
      assert |ItemsMeaning(a)| == |ItemsMeaning(b)|;
    } else {
      var x, y := a[|a| - 1], b[|b| - 1];
      assert |ItemsMeaning(a)| == |a| && |ItemsMeaning(b)| == |b|;
      assert ItemsMeaning(a)[|a| - 1] == Meaning(x) && ItemsMeaning(b)[|b| - 1] == Meaning(y);
      assert ItemsMeaning(a)[..|a| - 1] == ItemsMeaning(a[..|a| - 1])
          && ItemsMeaning(b)[..|b| - 1] == ItemsMeaning(b[..|b| - 1]);
      SameMeaningSameForm(x, y);
      SameItems(a[..|a| - 1], b[..|b| - 1]);
      assert a == a[..|a| - 1] + [x] && b == b[..|b| - 1] + [y];
    }
  }

  /** Each meaning has one canonical form. */
  lemma {:induction false} SameMeaningSameForm(a: Json, b: Json)
    requires Canonical(a) && Canonical(b) && Meaning(a) == Meaning(b)
    ensures a == b
  {
    match a
    case Arr(items) => SameItems(items, b.items);
    case Obj(members) => SameMembers(members, b.members);
    case _ =>
  }

  /** Two values have one canonical form exactly when they differ at most in the order of object members. */
  lemma {:induction false} CanonDecidesMeaning(a: Json, b: Json)
    ensures Canon(a) == Canon(b) <==> Meaning(a) == Meaning(b)
  {
    CanonIsCanonical(a);
    CanonIsCanonical(b);
    if Meaning(a) == Meaning(b) {
      SameMeaningSameForm(Canon(a), Canon(b));
    }
  }

  /** Canonical values are the fixed points, so putting a value in canonical form twice is doing it once. */
  lemma {:induction false} CanonFixed(json: Json)
    ensures Canon(json) == json <==> Canonical(json)
    ensures Canon(Canon(json)) == Canon(json)
  {
    CanonIsCanonical(json);
    CanonIsCanonical(Canon(json));
    SameMeaningSameForm(Canon(Canon(json)), Canon(json));
    if Canonical(json) {
      SameMeaningSameForm(Canon(json), json);
    }
  }

  // ----- reading members -----

  /** The value a key stands for in an object, if the value is one and has it. */
  function Get(json: Json, key: string): Option<Json> {
    if json.Obj? then Find(json.members, key) else None
  }

  function Find(members: seq<Member>, key: string): (found: Option<Json>)
    ensures found.Some? <==> key in MembersMeaning(members)
    ensures found.Some? ==> Meaning(found.value) == MembersMeaning(members)[key]
  {
    if members == [] then None
    else if members[|members| - 1].key == key then Some(members[|members| - 1].value)
    else Find(members[..|members| - 1], key)
  }

  lemma {:induction false} FindAt(members: seq<Member>, i: nat)
    requires i < |members| && forall j | i < j < |members| :: members[j].key != members[i].key
    ensures Find(members, members[i].key) == Some(members[i].value)
  {
    if i < |members| - 1 {
      FindAt(members[..|members| - 1], i);
    }
  }
}
