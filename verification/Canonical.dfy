/** Canonical JSON: the printer over which quotes and advertisements are signed, a reader that undoes it,
    and when two values print alike. */
module Canonical {
  import opened Basics
  import opened JsonText

  // Anything that is not a finite number, a finite one that is not whole, and the whole ones.
  datatype Number = NonFinite | Fractional | Whole(n: int)

  datatype Member<+T> = Member(key: Text, value: T)

  /** A value of the host language; `Unsupported` is what JSON has no form for (functions, symbols, ...). */
  datatype Value =
    | Null
    | Bool(b: bool)
    | Str(s: Text)
    | Num(number: Number)
    | Arr(items: seq<Value>)
    | Obj(members: seq<Member<Value>>)
    | Undefined
    | Unsupported

  datatype CanonError = NonFiniteNumber | UnsafeNumber | UnsupportedType

  const MAX_SAFE := 9007199254740991

  const NULL: Text := [110, 117, 108, 108]
  const TRUE: Text := [116, 114, 117, 101]
  const FALSE: Text := [102, 97, 108, 115, 101]
  const COMMA: Unit := 44
  const COLON: Unit := 58
  const OPEN_ARR: Unit := 91
  const CLOSE_ARR: Unit := 93
  const OPEN_OBJ: Unit := 123
  const CLOSE_OBJ: Unit := 125

  // ----- Keys in order of their code units -----

  predicate Less(a: Text, b: Text) {
    if b == [] then false
    else if a == [] then true
    else a[0] < b[0] || (a[0] == b[0] && Less(a[1..], b[1..]))
  }

  lemma {:induction false} LessIsTotal(a: Text, b: Text)
    ensures a == b || Less(a, b) || Less(b, a)
    ensures !(Less(a, b) && Less(b, a)) && !Less(a, a)
    decreases |a|
  {
    if a != [] {
      LessIsTotal(a[1..], a[1..]);
      if b != [] {
        LessIsTotal(a[1..], b[1..]);
        assert a[0] == b[0] && a[1..] == b[1..] ==> a == [a[0]] + a[1..] == [b[0]] + b[1..] == b;
      }
    }
  }

  /** The keys agree up to `k`, where `a` ends or has the smaller code unit. */
  predicate DiffersAt(a: Text, b: Text, k: nat) {
    k <= |a| && k < |b| && a[..k] == b[..k] && (k < |a| ==> a[k] < b[k])
  }

  /** The order of section 3.2.3 of RFC 8785: by the first code unit that differs, a prefix first. */
  ghost predicate Precedes(a: Text, b: Text) {
    exists k: nat :: DiffersAt(a, b, k)
  }

  lemma {:induction false} LessExactly(a: Text, b: Text)
    ensures Less(a, b) <==> Precedes(a, b)
    decreases |a|
  {
    if k: nat :| DiffersAt(a, b, k) { DiffersStart(a, b, k); }
    if b != [] && (a == [] || a[0] < b[0]) {
      assert DiffersAt(a, b, 0);
    } else if b != [] && a[0] == b[0] {
      LessExactly(a[1..], b[1..]);
      if k: nat :| DiffersAt(a[1..], b[1..], k) {
        assert a[..k + 1] == [a[0]] + a[1..][..k] && b[..k + 1] == [b[0]] + b[1..][..k];
        assert DiffersAt(a, b, k + 1);
      }
      if k: nat :| DiffersAt(a, b, k) { DiffersLater(a, b, k); }
    }
  }

  lemma DiffersStart(a: Text, b: Text, k: nat)
    requires DiffersAt(a, b, k)
    ensures b != [] && (a == [] || a[0] <= b[0])
    ensures k > 0 ==> a != [] && a[0] == b[0]
  {
    if k > 0 { assert a[..k][0] == b[..k][0]; }
  }

  lemma DiffersLater(a: Text, b: Text, k: nat)
    requires DiffersAt(a, b, k) && a != [] && a[0] == b[0]
    ensures k > 0 && DiffersAt(a[1..], b[1..], k - 1)
  {
    assert a[1..][..k - 1] == a[..k][1..] && b[1..][..k - 1] == b[..k][1..];
  }

  lemma {:induction false} LessIsTransitive(a: Text, b: Text, c: Text)
    requires Less(a, b) && Less(b, c)
    ensures Less(a, c)
    decreases |a|
  {
    if a != [] && a[0] == b[0] && b[0] == c[0] {
      LessIsTransitive(a[1..], b[1..], c[1..]);
    }
  }

  function Insert<T>(m: Member<T>, sorted: seq<Member<T>>): (r: seq<Member<T>>)
    ensures r != []
  {
    if sorted == [] || !Less(sorted[0].key, m.key) then [m] + sorted else [sorted[0]] + Insert(m, sorted[1..])
  }

  function Sort<T>(ms: seq<Member<T>>): seq<Member<T>> {
    if ms == [] then [] else Insert(ms[0], Sort(ms[1..]))
  }

  predicate Distinct<T>(ms: seq<Member<T>>) {
    forall i, j :: 0 <= i < j < |ms| ==> ms[i].key != ms[j].key
  }

  predicate Ascending<T>(ms: seq<Member<T>>) {
    forall i, j :: 0 <= i < j < |ms| ==> Less(ms[i].key, ms[j].key)
  }

  lemma PutFirst<T>(m: Member<T>, sorted: seq<Member<T>>)
    requires Ascending(sorted) && forall i :: 0 <= i < |sorted| ==> Less(m.key, sorted[i].key)
    ensures Ascending([m] + sorted)
  {
  }

  lemma BelowTheFirst<T>(m: Member<T>, sorted: seq<Member<T>>)
    requires sorted != [] && Ascending(sorted) && Less(m.key, sorted[0].key)
    ensures forall i :: 0 <= i < |sorted| ==> Less(m.key, sorted[i].key)
  {
    forall i | 1 <= i < |sorted| ensures Less(m.key, sorted[i].key) {
      LessIsTransitive(m.key, sorted[0].key, sorted[i].key);
    }
  }

  lemma {:induction false} InsertAdds<T>(m: Member<T>, sorted: seq<Member<T>>)
    ensures multiset(Insert(m, sorted)) == multiset(sorted) + multiset{m}
  {
    if sorted != [] {
      HeadAndTail(sorted);
      InsertAdds(m, sorted[1..]);
    }
  }

  lemma IsMemberOrIn<T>(m: Member<T>, sorted: seq<Member<T>>, i: nat)
    requires i < |Insert(m, sorted)|
    ensures Insert(m, sorted)[i] == m || Insert(m, sorted)[i] in sorted
  {
    InsertAdds(m, sorted);
    assert Insert(m, sorted)[i] in multiset(Insert(m, sorted));
  }

  lemma {:induction false} InsertKeeps<T>(m: Member<T>, sorted: seq<Member<T>>)
    requires Ascending(sorted) && forall i :: 0 <= i < |sorted| ==> sorted[i].key != m.key
    ensures Ascending(Insert(m, sorted))
  {
    if sorted == [] {
    } else if !Less(sorted[0].key, m.key) {
      LessIsTotal(sorted[0].key, m.key);
      BelowTheFirst(m, sorted);
      PutFirst(m, sorted);
    } else {
      var r := Insert(m, sorted[1..]);
      InsertKeeps(m, sorted[1..]);
      forall i | 0 <= i < |r| ensures Less(sorted[0].key, r[i].key) {
        IsMemberOrIn(m, sorted[1..], i);
      }
      PutFirst(sorted[0], r);
    }
  }

  lemma FirstKeyIsNew<T>(ms: seq<Member<T>>, others: seq<Member<T>>)
    requires ms != [] && Distinct(ms) && multiset(others) == multiset(ms[1..])
    ensures forall i :: 0 <= i < |others| ==> others[i].key != ms[0].key
  {
    forall i | 0 <= i < |others| ensures others[i].key != ms[0].key {
      assert others[i] in multiset(others);
      var k :| 0 <= k < |ms[1..]| && ms[1..][k] == others[i];
      assert ms[k + 1] == others[i];
    }
  }

  lemma {:induction false} SortAscends<T>(ms: seq<Member<T>>)
    requires Distinct(ms)
    ensures multiset(Sort(ms)) == multiset(ms) && Ascending(Sort(ms))
  {
    if ms != [] {
      SortAscends(ms[1..]);
      HeadAndTail(ms);
      FirstKeyIsNew(ms, Sort(ms[1..]));
      InsertAdds(ms[0], Sort(ms[1..]));
      InsertKeeps(ms[0], Sort(ms[1..]));
    }
  }

  /** Each key precedes all that follow it. */
  ghost predicate Climbs<T>(ms: seq<Member<T>>) {
    forall i, j :: 0 <= i < j < |ms| ==> Precedes(ms[i].key, ms[j].key)
  }

  lemma AscendsIsClimbs<T>(ms: seq<Member<T>>)
    ensures Ascending(ms) <==> Climbs(ms)
  {
    forall i, j | 0 <= i < j < |ms| ensures Less(ms[i].key, ms[j].key) <==> Precedes(ms[i].key, ms[j].key) {
      LessExactly(ms[i].key, ms[j].key);
    }
  }

  /** Sorting permutes, and with distinct keys the result climbs strictly, by code units. */
  lemma SortSorts<T>(ms: seq<Member<T>>)
    requires Distinct(ms)
    ensures multiset(Sort(ms)) == multiset(ms) && Climbs(Sort(ms))
  {
    SortAscends(ms);
    AscendsIsClimbs(Sort(ms));
  }

  /** Strictly climbing sequences are determined by what they hold. */
  lemma {:induction false} AscendingUnique<T>(a: seq<Member<T>>, b: seq<Member<T>>)
    requires Ascending(a) && Ascending(b)
    requires forall m :: m in a <==> m in b
    ensures a == b
    decreases |a|
  {
    Occupied(b);
    if a != [] {
      assert a[0] in b;
      assert b[0] in a;
      SameFirst(a, b);
      assert a == [a[0]] + a[1..] && b == [b[0]] + b[1..];
      forall m ensures m in a[1..] <==> m in b[1..] {
        NotFirst(a, m);
        NotFirst(b, m);
      }
      AscendingUnique(a[1..], b[1..]);
    }
  }

  lemma Occupied<T>(a: seq<T>)
    ensures a == [] || exists m :: m in a
  {
    if a != [] {
      assert a[0] in a;
    }
  }

  lemma SameFirst<T>(a: seq<Member<T>>, b: seq<Member<T>>)
    requires Ascending(a) && Ascending(b) && a != [] && b != []
    requires a[0] in b && b[0] in a
    ensures a[0] == b[0]
  {
    var i :| 0 <= i < |b| && b[i] == a[0];
    var j :| 0 <= j < |a| && a[j] == b[0];
    if i > 0 && j > 0 {
      assert Less(b[0].key, b[i].key) && Less(a[0].key, a[j].key);
      LessIsTotal(a[0].key, b[0].key);
    }
  }

  lemma NotFirst<T>(a: seq<Member<T>>, m: Member<T>)
    requires Ascending(a) && a != []
    ensures m in a[1..] <==> m in a && m != a[0]
  {
    LessIsTotal(a[0].key, a[0].key);
    if m in a[1..] {
      var i :| 0 <= i < |a| - 1 && a[1..][i] == m;
      assert a[i + 1] == m && Less(a[0].key, a[i + 1].key);
    }
    if m in a && m != a[0] {
      var i :| 0 <= i < |a| && a[i] == m;
      assert a[1..][i - 1] == m;
    }
  }

  // ----- The printer -----

  predicate Safe(n: int) {
    -MAX_SAFE <= n <= MAX_SAFE
  }

  function Scalar(v: Value): Result<Text, CanonError>
    requires !v.Arr? && !v.Obj?
  {
    match v
    case Null => Ok(NULL)
    case Bool(b) => Ok(if b then TRUE else FALSE)
    case Str(s) => Ok(Quoted(s))
    case Num(NonFinite) => Err(NonFiniteNumber)
    case Num(Fractional) => Err(UnsafeNumber)
    case Num(Whole(n)) => if Safe(n) then Ok(Integer(n)) else Err(UnsafeNumber)
    case _ => Err(UnsupportedType)
  }

  /** Joined by commas; the first error wins. */
  function Joined(parts: seq<Result<Text, CanonError>>): Result<Text, CanonError> {
    if parts == [] then Ok([])
    else if parts[0].Err? then parts[0]
    else if |parts| == 1 then parts[0]
    else
      var more := Joined(parts[1..]);
      if more.Err? then more else Ok(parts[0].value + ([COMMA] + more.value))
  }

  function Between(open: Unit, body: Result<Text, CanonError>, close: Unit): Result<Text, CanonError> {
    if body.Err? then body else Ok([open] + (body.value + [close]))
  }

  function Labelled(m: Member<Result<Text, CanonError>>): Result<Text, CanonError> {
    if m.value.Err? then m.value else Ok(Quoted(m.key) + ([COLON] + m.value.value))
  }

  function AllLabelled(ms: seq<Member<Result<Text, CanonError>>>): (r: seq<Result<Text, CanonError>>)
    ensures |r| == |ms| && forall i :: 0 <= i < |ms| ==> r[i] == Labelled(ms[i])
  {
    seq(|ms|, i requires 0 <= i < |ms| => Labelled(ms[i]))
  }

  function Canonicalize(v: Value): Result<Text, CanonError>
    decreases v
  {
    match v
    case Arr(items) => Between(OPEN_ARR, Joined(CanonItems(items)), CLOSE_ARR)
    case Obj(members) => Between(OPEN_OBJ, Joined(AllLabelled(Sort(CanonMembers(members)))), CLOSE_OBJ)
    case _ => Scalar(v)
  }

  function CanonItems(items: seq<Value>): seq<Result<Text, CanonError>>
    decreases items
  {
    if items == [] then [] else [Canonicalize(items[0])] + CanonItems(items[1..])
  }

  /** The members that are not undefined. */
  function CanonMembers(members: seq<Member<Value>>): seq<Member<Result<Text, CanonError>>>
    decreases members
  {
    if members == [] then []
    else if members[0].value.Undefined? then CanonMembers(members[1..])
    else [Member(members[0].key, Canonicalize(members[0].value))] + CanonMembers(members[1..])
  }

  // ----- The same in two steps: bring the value into normal form, then print it as it stands -----

  function Norm(v: Value): Value
    decreases v
  {
    match v
    case Arr(items) => Arr(NormItems(items))
    case Obj(members) => Obj(Sort(NormMembers(members)))
    case _ => v
  }

  function NormItems(items: seq<Value>): seq<Value>
    decreases items
  {
    if items == [] then [] else [Norm(items[0])] + NormItems(items[1..])
  }

  function NormMembers(members: seq<Member<Value>>): seq<Member<Value>>
    decreases members
  {
    if members == [] then []
    else if members[0].value.Undefined? then NormMembers(members[1..])
    else [Member(members[0].key, Norm(members[0].value))] + NormMembers(members[1..])
  }

  function Print(v: Value): Result<Text, CanonError>
    decreases v
  {
    match v
    case Arr(items) => Between(OPEN_ARR, Joined(PrintItems(items)), CLOSE_ARR)
    case Obj(members) => Between(OPEN_OBJ, Joined(AllLabelled(PrintMembers(members))), CLOSE_OBJ)
    case _ => Scalar(v)
  }

  function PrintItems(items: seq<Value>): (r: seq<Result<Text, CanonError>>)
    ensures |r| == |items|
    decreases items
  {
    if items == [] then [] else [Print(items[0])] + PrintItems(items[1..])
  }

  function PrintMembers(members: seq<Member<Value>>): (r: seq<Member<Result<Text, CanonError>>>)
    ensures |r| == |members|
    decreases members
  {
    if members == [] then [] else [Member(members[0].key, Print(members[0].value))] + PrintMembers(members[1..])
  }

  lemma {:induction false} InsertThenPrint(m: Member<Value>, sorted: seq<Member<Value>>)
    ensures PrintMembers(Insert(m, sorted)) == Insert(Member(m.key, Print(m.value)), PrintMembers(sorted))
  {
    if sorted == [] || !Less(sorted[0].key, m.key) {
      assert ([m] + sorted)[1..] == sorted;
    } else {
      InsertThenPrint(m, sorted[1..]);
      assert ([sorted[0]] + Insert(m, sorted[1..]))[1..] == Insert(m, sorted[1..]);
      assert PrintMembers(sorted)[1..] == PrintMembers(sorted[1..]);
    }
  }

  lemma {:induction false} SortThenPrint(ms: seq<Member<Value>>)
    ensures PrintMembers(Sort(ms)) == Sort(PrintMembers(ms))
  {
    if ms != [] {
      SortThenPrint(ms[1..]);
      InsertThenPrint(ms[0], Sort(ms[1..]));
      assert PrintMembers(ms)[1..] == PrintMembers(ms[1..]);
    }
  }

  /** Sorting and filtering at every level first, and printing afterwards, gives the same text or error. */
  lemma {:induction false} PrintsItsNorm(v: Value)
    ensures Canonicalize(v) == Print(Norm(v))
    decreases v
  {
    match v
    case Arr(items) => ItemsPrintTheirNorms(items);
    case Obj(members) =>
      MembersPrintTheirNorms(members);
      SortThenPrint(NormMembers(members));
    case _ =>
  }

  lemma {:induction false} ItemsPrintTheirNorms(items: seq<Value>)
    ensures CanonItems(items) == PrintItems(NormItems(items))
    decreases items
  {
    if items != [] {
      PrintsItsNorm(items[0]);
      ItemsPrintTheirNorms(items[1..]);
      assert NormItems(items)[1..] == NormItems(items[1..]);
    }
  }

  lemma {:induction false} MembersPrintTheirNorms(members: seq<Member<Value>>)
    ensures CanonMembers(members) == PrintMembers(NormMembers(members))
    decreases members
  {
    if members != [] {
      MembersPrintTheirNorms(members[1..]);
      if !members[0].value.Undefined? {
        PrintsItsNorm(members[0].value);
        assert NormMembers(members)[1..] == NormMembers(members[1..]);
      }
    }
  }

  // ----- When two values say the same -----

  predicate Proper(v: Value)
    decreases v
  {
    match v
    case Arr(items) => forall i :: 0 <= i < |items| ==> Proper(items[i])
    case Obj(members) => Distinct(members) && forall i :: 0 <= i < |members| ==> Proper(members[i].value)
    case _ => true
  }

  predicate Has(members: seq<Member<Value>>, key: Text) {
    exists i :: 0 <= i < |members| && members[i].key == key && !members[i].value.Undefined?
  }

  /** Equal up to the order of members and members that are undefined. */
  predicate Alike(v: Value, w: Value)
    decreases v
  {
    match v
    case Arr(items) =>
      w.Arr? && |items| == |w.items| && forall i :: 0 <= i < |items| ==> Alike(items[i], w.items[i])
    case Obj(members) =>
      && w.Obj?
      && (forall i :: 0 <= i < |members| && !members[i].value.Undefined? ==>
            exists j :: 0 <= j < |w.members| && w.members[j].key == members[i].key && !w.members[j].value.Undefined?
                        && Alike(members[i].value, w.members[j].value))
      && (forall j :: 0 <= j < |w.members| && !w.members[j].value.Undefined? ==> Has(members, w.members[j].key))
    case _ => v == w
  }

  lemma {:induction false} NormItemAt(items: seq<Value>, i: nat)
    requires i < |items|
    ensures |NormItems(items)| == |items| && NormItems(items)[i] == Norm(items[i])
  {
    if |items| == 1 {
      assert items[1..] == [];
    } else {
      NormItemAt(items[1..], if i == 0 then 0 else i - 1);
    }
  }

  lemma {:induction false} NormMemberIn(members: seq<Member<Value>>, m: Member<Value>)
    ensures m in NormMembers(members) <==>
      exists i :: 0 <= i < |members| && !members[i].value.Undefined? && m == Member(members[i].key, Norm(members[i].value))
  {
    if members != [] {
      NormMemberIn(members[1..], m);
      assert members == [members[0]] + members[1..];
      if m in NormMembers(members[1..]) {
        var i :| 0 <= i < |members| - 1 && !members[1..][i].value.Undefined? &&
                 m == Member(members[1..][i].key, Norm(members[1..][i].value));
        assert members[i + 1] == members[1..][i];
      }
      if i :| 1 <= i < |members| && !members[i].value.Undefined? && m == Member(members[i].key, Norm(members[i].value)) {
        assert members[1..][i - 1] == members[i];
      }
    }
  }

  lemma {:induction false} NormMembersDistinct(members: seq<Member<Value>>)
    requires Distinct(members)
    ensures Distinct(NormMembers(members))
  {
    if members != [] && !members[0].value.Undefined? {
      NormMembersDistinct(members[1..]);
      var rest := NormMembers(members[1..]);
      forall i | 0 <= i < |rest| ensures rest[i].key != members[0].key {
        NormMemberIn(members[1..], rest[i]);
        assert rest[i] in rest;
      }
    } else if members != [] {
      NormMembersDistinct(members[1..]);
    }
  }

  /** The sorted members hold exactly the normal forms of the defined ones. */
  lemma SortedNorms(members: seq<Member<Value>>)
    requires Distinct(members)
    ensures Ascending(Sort(NormMembers(members)))
    ensures forall m :: m in Sort(NormMembers(members)) <==> m in NormMembers(members)
  {
    NormMembersDistinct(members);
    SortAscends(NormMembers(members));
    forall m ensures m in Sort(NormMembers(members)) <==> m in NormMembers(members) {
      assert m in Sort(NormMembers(members)) <==> m in multiset(NormMembers(members));
    }
  }

  /** Having the same normal form is saying the same. */
  lemma {:induction false} NormMeansAlike(v: Value, w: Value)
    requires Proper(v) && Proper(w)
    ensures Norm(v) == Norm(w) <==> Alike(v, w)
    decreases v
  {
    match v
    case Arr(items) =>
      if w.Arr? && |items| == |w.items| {
        forall i | 0 <= i < |items| ensures Norm(items[i]) == Norm(w.items[i]) <==> Alike(items[i], w.items[i]) {
          NormMeansAlike(items[i], w.items[i]);
        }
        SameItems(items, w.items);
      } else if w.Arr? {
        NormLength(items);
        NormLength(w.items);
      }
    case Obj(members) =>
      if w.Obj? {
        forall i, j | 0 <= i < |members| && 0 <= j < |w.members|
          ensures Norm(members[i].value) == Norm(w.members[j].value) <==> Alike(members[i].value, w.members[j].value)
        {
          NormMeansAlike(members[i].value, w.members[j].value);
        }
        if Norm(v) == Norm(w) { NormsEqualAlike(members, w.members); }
        if Alike(v, w) { AlikeNormsEqual(members, w.members); }
      }
    case _ =>
  }

  lemma {:induction false} NormLength(items: seq<Value>)
    ensures |NormItems(items)| == |items|
  {
    if items != [] {
      NormLength(items[1..]);
    }
  }

  lemma SameItems(items: seq<Value>, others: seq<Value>)
    requires |items| == |others|
    ensures NormItems(items) == NormItems(others) <==>
              forall i :: 0 <= i < |items| ==> Norm(items[i]) == Norm(others[i])
  {
    NormLength(items);
    NormLength(others);
    forall i | 0 <= i < |items|
      ensures NormItems(items)[i] == Norm(items[i]) && NormItems(others)[i] == Norm(others[i])
    {
      NormItemAt(items, i);
      NormItemAt(others, i);
    }
  }

  ghost predicate AgreePointwise(ms: seq<Member<Value>>, ns: seq<Member<Value>>) {
    forall i, j :: 0 <= i < |ms| && 0 <= j < |ns| ==>
      (Norm(ms[i].value) == Norm(ns[j].value) <==> Alike(ms[i].value, ns[j].value))
  }

  lemma Counterpart(ms: seq<Member<Value>>, ns: seq<Member<Value>>, i: nat) returns (j: nat)
    requires Distinct(ms) && Distinct(ns) && Sort(NormMembers(ms)) == Sort(NormMembers(ns))
    requires i < |ms| && !ms[i].value.Undefined?
    ensures j < |ns| && ns[j].key == ms[i].key && !ns[j].value.Undefined? && Norm(ms[i].value) == Norm(ns[j].value)
  {
    SortedNorms(ms);
    SortedNorms(ns);
    var m := Member(ms[i].key, Norm(ms[i].value));
    NormMemberIn(ms, m);
    NormMemberIn(ns, m);
    assert m in Sort(NormMembers(ns));
    j :| 0 <= j < |ns| && !ns[j].value.Undefined? && m == Member(ns[j].key, Norm(ns[j].value));
  }

  lemma NormsEqualAlike(ms: seq<Member<Value>>, ns: seq<Member<Value>>)
    requires Distinct(ms) && Distinct(ns) && AgreePointwise(ms, ns)
    requires Sort(NormMembers(ms)) == Sort(NormMembers(ns))
    ensures Alike(Obj(ms), Obj(ns))
  {
    forall i | 0 <= i < |ms| && !ms[i].value.Undefined?
      ensures exists j :: 0 <= j < |ns| && ns[j].key == ms[i].key && !ns[j].value.Undefined? && Alike(ms[i].value, ns[j].value)
    {
      var j := Counterpart(ms, ns, i);
    }
    forall j | 0 <= j < |ns| && !ns[j].value.Undefined? ensures Has(ms, ns[j].key) {
      var i := Counterpart(ns, ms, j);
    }
  }

  lemma AlikeMemberOver(ms: seq<Member<Value>>, ns: seq<Member<Value>>, m: Member<Value>)
    requires AgreePointwise(ms, ns) && Alike(Obj(ms), Obj(ns)) && m in NormMembers(ms)
    ensures m in NormMembers(ns)
  {
    NormMemberIn(ms, m);
    NormMemberIn(ns, m);
  }

  lemma NormIn(members: seq<Member<Value>>, i: nat)
    requires i < |members| && !members[i].value.Undefined?
    ensures Member(members[i].key, Norm(members[i].value)) in NormMembers(members)
  {
    NormMemberIn(members, Member(members[i].key, Norm(members[i].value)));
  }

  lemma SameKeySameIndex<T>(ms: seq<Member<T>>, i: nat, j: nat)
    requires Distinct(ms) && i < |ms| && j < |ms| && ms[i].key == ms[j].key
    ensures i == j
  {
  }

  lemma AlikeMemberBack(ms: seq<Member<Value>>, ns: seq<Member<Value>>, m: Member<Value>)
    requires Distinct(ns) && AgreePointwise(ms, ns) && Alike(Obj(ms), Obj(ns)) && m in NormMembers(ns)
    ensures m in NormMembers(ms)
  {
    NormMemberIn(ns, m);
    var j :| 0 <= j < |ns| && !ns[j].value.Undefined? && m == Member(ns[j].key, Norm(ns[j].value));
    assert Has(ms, ns[j].key);
    var i :| 0 <= i < |ms| && ms[i].key == ns[j].key && !ms[i].value.Undefined?;
    var k :| 0 <= k < |ns| && ns[k].key == ms[i].key && !ns[k].value.Undefined? && Alike(ms[i].value, ns[k].value);
    SameKeySameIndex(ns, j, k);
    NormIn(ms, i);
  }

  lemma AlikeNormsEqual(ms: seq<Member<Value>>, ns: seq<Member<Value>>)
    requires Distinct(ms) && Distinct(ns) && AgreePointwise(ms, ns) && Alike(Obj(ms), Obj(ns))
    ensures Sort(NormMembers(ms)) == Sort(NormMembers(ns))
  {
    SortedNorms(ms);
    SortedNorms(ns);
    forall m | m in NormMembers(ms) ensures m in NormMembers(ns) { AlikeMemberOver(ms, ns, m); }
    forall m | m in NormMembers(ns) ensures m in NormMembers(ms) { AlikeMemberBack(ms, ns, m); }
    AscendingUnique(Sort(NormMembers(ms)), Sort(NormMembers(ns)));
  }

  // ----- Reading a canonical text back -----

  function ReadValue(t: Text): (r: Option<Read<Value>>)
    ensures r.Some? ==> |r.value.rest| < |t|
    decreases |t|, 0
  {
    if t == [] then None
    else if t[0] == NULL[0] then ReadWord(NULL, Null, t)
    else if t[0] == TRUE[0] then ReadWord(TRUE, Bool(true), t)
    else if t[0] == FALSE[0] then ReadWord(FALSE, Bool(false), t)
    else if t[0] == QUOTE then
      var s := ReadString(t[1..]);
      if s.None? then None else Some(Read(Str(s.value.value), s.value.rest))
    else if t[0] == OPEN_ARR then
      if |t| >= 2 && t[1] == CLOSE_ARR then Some(Read(Arr([]), t[2..])) else
      var items := ReadItems(t[1..]);
      if items.None? then None else Some(Read(Arr(items.value.value), items.value.rest))
    else if t[0] == OPEN_OBJ then
      if |t| >= 2 && t[1] == CLOSE_OBJ then Some(Read(Obj([]), t[2..])) else
      var members := ReadMembers(t[1..]);
      if members.None? then None else Some(Read(Obj(members.value.value), members.value.rest))
    else
      var n := ReadInteger(t);
      if n.None? then None else Some(Read(Num(Whole(n.value.value)), n.value.rest))
  }

  function ReadWord(word: Text, v: Value, t: Text): (r: Option<Read<Value>>)
    requires word != []
    ensures r.Some? ==> |r.value.rest| < |t|
  {
    if word <= t then Some(Read(v, t[|word|..])) else None
  }

  /** The items of a non-empty array, through its closing bracket. */
  function ReadItems(t: Text): (r: Option<Read<seq<Value>>>)
    ensures r.Some? ==> |r.value.rest| < |t|
    decreases |t|, 1
  {
    var v := ReadValue(t);
    if v.None? || v.value.rest == [] then None
    else if v.value.rest[0] == CLOSE_ARR then Some(Read([v.value.value], v.value.rest[1..]))
    else if v.value.rest[0] == COMMA then
      var more := ReadItems(v.value.rest[1..]);
      if more.None? then None else Some(Read([v.value.value] + more.value.value, more.value.rest))
    else None
  }

  function ReadMember(t: Text): (r: Option<Read<Member<Value>>>)
    ensures r.Some? ==> |r.value.rest| < |t|
    decreases |t|, 1
  {
    if t == [] || t[0] != QUOTE then None else
    var key := ReadString(t[1..]);
    if key.None? || key.value.rest == [] || key.value.rest[0] != COLON then None else
    var v := ReadValue(key.value.rest[1..]);
    if v.None? then None else Some(Read(Member(key.value.value, v.value.value), v.value.rest))
  }

  /** The members of a non-empty object, through its closing brace. */
  function ReadMembers(t: Text): (r: Option<Read<seq<Member<Value>>>>)
    ensures r.Some? ==> |r.value.rest| < |t|
    decreases |t|, 2
  {
    var m := ReadMember(t);
    if m.None? || m.value.rest == [] then None
    else if m.value.rest[0] == CLOSE_OBJ then Some(Read([m.value.value], m.value.rest[1..]))
    else if m.value.rest[0] == COMMA then
      var more := ReadMembers(m.value.rest[1..]);
      if more.None? then None else Some(Read([m.value.value] + more.value.value, more.value.rest))
    else None
  }

  lemma WordReadsBack(word: Text, v: Value, rest: Text)
    requires word != []
    ensures ReadWord(word, v, word + rest) == Some(Read(v, rest))
  {
  }

  lemma ScalarReadsBack(v: Value, rest: Text)
    requires !v.Arr? && !v.Obj? && Scalar(v).Ok? && NoDigitNext(rest)
    ensures ReadValue(Scalar(v).value + rest) == Some(Read(v, rest))
  {
    match v
    case Null => WordReadsBack(NULL, v, rest);
    case Bool(b) => WordReadsBack(if b then TRUE else FALSE, v, rest);
    case Str(s) => StrReadsBack(s, rest);
    case Num(Whole(n)) => NumReadsBack(n, rest);
  }

  lemma QuotedShape(e: Text, rest: Text)
    ensures ([QUOTE] + e + [QUOTE]) + rest == [QUOTE] + (e + ([QUOTE] + rest))
  {
  }

  lemma ReadsStr(t: Text, s: Text, rest: Text)
    requires t != [] && t[0] == QUOTE && ReadString(t[1..]) == Some(Read(s, rest))
    ensures ReadValue(t) == Some(Read(Str(s), rest))
  {
  }

  lemma QuotedReadsBack(s: Text, rest: Text)
    ensures (Quoted(s) + rest)[0] == QUOTE
    ensures ReadString((Quoted(s) + rest)[1..]) == Some(Read(s, rest))
  {
    var body := Escaped(s) + ([QUOTE] + rest);
    StringReadsBack(s, rest);
    QuotedShape(Escaped(s), rest);
    assert ([QUOTE] + body)[1..] == body;
  }

  lemma StrReadsBack(s: Text, rest: Text)
    ensures ReadValue(Quoted(s) + rest) == Some(Read(Str(s), rest))
  {
    QuotedReadsBack(s, rest);
    ReadsStr(Quoted(s) + rest, s, rest);
  }

  lemma NumReadsBack(n: int, rest: Text)
    requires NoDigitNext(rest)
    ensures ReadValue(Integer(n) + rest) == Some(Read(Num(Whole(n)), rest))
  {
    IntegerReadsBack(n, rest);
    assert (Integer(n) + rest)[0] == Integer(n)[0];
  }

  lemma LastItem(v: Value, text: Text, rest: Text)
    requires ReadValue(text + ([CLOSE_ARR] + rest)) == Some(Read(v, [CLOSE_ARR] + rest))
    ensures ReadItems(text + ([CLOSE_ARR] + rest)) == Some(Read([v], rest))
  {
    assert ([CLOSE_ARR] + rest)[1..] == rest;
  }

  lemma OneMoreItem(v: Value, text: Text, items: seq<Value>, more: Text, rest: Text)
    requires ReadValue(text + ([COMMA] + more)) == Some(Read(v, [COMMA] + more))
    requires ReadItems(more) == Some(Read(items, rest))
    ensures ReadItems(text + ([COMMA] + more)) == Some(Read([v] + items, rest))
  {
    assert ([COMMA] + more)[1..] == more;
  }

  lemma LastMember(m: Member<Value>, text: Text, rest: Text)
    requires ReadMember(text + ([CLOSE_OBJ] + rest)) == Some(Read(m, [CLOSE_OBJ] + rest))
    ensures ReadMembers(text + ([CLOSE_OBJ] + rest)) == Some(Read([m], rest))
  {
    assert ([CLOSE_OBJ] + rest)[1..] == rest;
  }

  lemma OneMoreMember(m: Member<Value>, text: Text, members: seq<Member<Value>>, more: Text, rest: Text)
    requires ReadMember(text + ([COMMA] + more)) == Some(Read(m, [COMMA] + more))
    requires ReadMembers(more) == Some(Read(members, rest))
    ensures ReadMembers(text + ([COMMA] + more)) == Some(Read([m] + members, rest))
  {
    assert ([COMMA] + more)[1..] == more;
  }

  lemma ReadsMember(t: Text, key: Text, after: Text, v: Value, rest: Text)
    requires t != [] && t[0] == QUOTE && ReadString(t[1..]) == Some(Read(key, [COLON] + after))
    requires ReadValue(after) == Some(Read(v, rest))
    ensures ReadMember(t) == Some(Read(Member(key, v), rest))
  {
    assert ([COLON] + after)[1..] == after;
  }

  lemma LabelledReadsBack(key: Text, v: Value, text: Text, rest: Text)
    requires ReadValue(text + rest) == Some(Read(v, rest))
    ensures ReadMember((Quoted(key) + ([COLON] + text)) + rest) == Some(Read(Member(key, v), rest))
  {
    var after := [COLON] + (text + rest);
    QuotedReadsBack(key, after);
    ReadsMember(Quoted(key) + after, key, text + rest, v, rest);
    JoinShape(Quoted(key), COLON, text, rest);
  }

  lemma JoinShape(left: Text, u: Unit, right: Text, rest: Text)
    ensures (left + ([u] + right)) + rest == left + ([u] + (right + rest))
  {
  }

  /** No value's text starts like the end of an array. */
  lemma FirstUnit(v: Value)
    requires Print(v).Ok?
    ensures Print(v).value != [] && Print(v).value[0] != CLOSE_ARR
  {
  }

  lemma FirstOfJoined(parts: seq<Result<Text, CanonError>>)
    requires parts != [] && Joined(parts).Ok?
    ensures parts[0].Ok? && parts[0].value <= Joined(parts).value
  {
  }

  lemma BracketShape(open: Unit, body: Text, close: Unit, rest: Text)
    ensures var t: Text := ([open] + (body + [close])) + rest;
            && |t| >= 2 && t[0] == open && t[1..] == body + ([close] + rest)
            && t[1] == (if body == [] then close else body[0]) && (body == [] ==> t[2..] == rest)
  {
  }

  lemma ReadsArray(t: Text, items: seq<Value>, rest: Text)
    requires |t| >= 2 && t[0] == OPEN_ARR
    requires if t[1] == CLOSE_ARR then items == [] && t[2..] == rest else ReadItems(t[1..]) == Some(Read(items, rest))
    ensures ReadValue(t) == Some(Read(Arr(items), rest))
  {
  }

  lemma ReadsObject(t: Text, members: seq<Member<Value>>, rest: Text)
    requires |t| >= 2 && t[0] == OPEN_OBJ
    requires if t[1] == CLOSE_OBJ then members == [] && t[2..] == rest else ReadMembers(t[1..]) == Some(Read(members, rest))
    ensures ReadValue(t) == Some(Read(Obj(members), rest))
  {
  }

  lemma ArrayReadsBack(items: seq<Value>, body: Text, rest: Text)
    requires items == [] ==> body == []
    requires items != [] ==> body != [] && body[0] != CLOSE_ARR
    requires items != [] ==> ReadItems(body + ([CLOSE_ARR] + rest)) == Some(Read(items, rest))
    ensures ReadValue(([OPEN_ARR] + (body + [CLOSE_ARR])) + rest) == Some(Read(Arr(items), rest))
  {
    BracketShape(OPEN_ARR, body, CLOSE_ARR, rest);
    ReadsArray(([OPEN_ARR] + (body + [CLOSE_ARR])) + rest, items, rest);
  }

  lemma ObjectReadsBack(members: seq<Member<Value>>, body: Text, rest: Text)
    requires members == [] ==> body == []
    requires members != [] ==> body != [] && body[0] != CLOSE_OBJ
    requires members != [] ==> ReadMembers(body + ([CLOSE_OBJ] + rest)) == Some(Read(members, rest))
    ensures ReadValue(([OPEN_OBJ] + (body + [CLOSE_OBJ])) + rest) == Some(Read(Obj(members), rest))
  {
    BracketShape(OPEN_OBJ, body, CLOSE_OBJ, rest);
    ReadsObject(([OPEN_OBJ] + (body + [CLOSE_OBJ])) + rest, members, rest);
  }

  lemma JoinedSplits(parts: seq<Result<Text, CanonError>>)
    requires parts != [] && Joined(parts).Ok?
    ensures parts[0].Ok?
    ensures |parts| == 1 ==> Joined(parts) == parts[0]
    ensures |parts| > 1 ==> Joined(parts[1..]).Ok? &&
                            Joined(parts).value == parts[0].value + ([COMMA] + Joined(parts[1..]).value)
  {
  }

  /** What is printed reads back, whatever follows it. */
  lemma {:induction false} PrintReadsBack(v: Value, rest: Text)
    requires Print(v).Ok? && NoDigitNext(rest)
    ensures ReadValue(Print(v).value + rest) == Some(Read(v, rest))
    decreases v, 1
  {
    match v
    case Arr(items) =>
      if items != [] {
        ItemsReadBack(items, rest);
        FirstUnit(items[0]);
        FirstOfJoined(PrintItems(items));
      }
      ArrayReadsBack(items, Joined(PrintItems(items)).value, rest);
    case Obj(members) =>
      if members != [] {
        MembersReadBack(members, rest);
        FirstOfJoined(AllLabelled(PrintMembers(members)));
      }
      ObjectReadsBack(members, Joined(AllLabelled(PrintMembers(members))).value, rest);
    case _ => ScalarReadsBack(v, rest);
  }

  lemma {:induction false} ItemsReadBack(items: seq<Value>, rest: Text)
    requires items != [] && Joined(PrintItems(items)).Ok?
    ensures ReadItems(Joined(PrintItems(items)).value + ([CLOSE_ARR] + rest)) == Some(Read(items, rest))
    decreases items, 0
  {
    var parts := PrintItems(items);
    var close := [CLOSE_ARR] + rest;
    JoinedSplits(parts);
    ItemsSplit(items);
    HeadAndTail(items);
    if |items| == 1 {
      PrintReadsBack(items[0], close);
      LastItem(items[0], parts[0].value, rest);
    } else {
      var body := Joined(parts[1..]).value;
      ItemsReadBack(items[1..], rest);
      PrintReadsBack(items[0], [COMMA] + (body + close));
      OneMoreItem(items[0], parts[0].value, items[1..], body + close, rest);
      JoinShape(parts[0].value, COMMA, body, close);
    }
  }

  lemma ItemsSplit(items: seq<Value>)
    requires items != []
    ensures PrintItems(items)[0] == Print(items[0]) && PrintItems(items)[1..] == PrintItems(items[1..])
  {
    var more := PrintItems(items[1..]);
    assert PrintItems(items) == [Print(items[0])] + more;
    assert ([Print(items[0])] + more)[1..] == more;
  }

  lemma MembersSplit(members: seq<Member<Value>>)
    requires members != []
    ensures AllLabelled(PrintMembers(members))[0] == Labelled(Member(members[0].key, Print(members[0].value)))
    ensures AllLabelled(PrintMembers(members))[1..] == AllLabelled(PrintMembers(members[1..]))
  {
    assert PrintMembers(members)[1..] == PrintMembers(members[1..]);
  }

  lemma {:induction false} MembersReadBack(members: seq<Member<Value>>, rest: Text)
    requires members != [] && Joined(AllLabelled(PrintMembers(members))).Ok?
    ensures ReadMembers(Joined(AllLabelled(PrintMembers(members))).value + ([CLOSE_OBJ] + rest)) == Some(Read(members, rest))
    decreases members, 0
  {
    var m := members[0];
    var parts := AllLabelled(PrintMembers(members));
    var close := [CLOSE_OBJ] + rest;
    JoinedSplits(parts);
    MembersSplit(members);
    HeadAndTail(members);
    if |members| == 1 {
      PrintReadsBack(m.value, close);
      LabelledReadsBack(m.key, m.value, Print(m.value).value, close);
      LastMember(m, parts[0].value, rest);
    } else {
      var body := Joined(parts[1..]).value;
      MembersReadBack(members[1..], rest);
      PrintReadsBack(m.value, [COMMA] + (body + close));
      LabelledReadsBack(m.key, m.value, Print(m.value).value, [COMMA] + (body + close));
      OneMoreMember(m, parts[0].value, members[1..], body + close, rest);
      JoinShape(parts[0].value, COMMA, body, close);
    }
  }

  // ----- The main results -----

  /** A canonical text reads back as the value's normal form, whatever follows it. */
  lemma CanonicalReadsBack(v: Value, rest: Text)
    requires Canonicalize(v).Ok? && NoDigitNext(rest)
    ensures ReadValue(Canonicalize(v).value + rest) == Some(Read(Norm(v), rest))
  {
    PrintsItsNorm(v);
    PrintReadsBack(Norm(v), rest);
  }

  /** In every object, at any depth, the keys climb. */
  ghost predicate KeysClimb(v: Value)
    decreases v
  {
    match v
    case Arr(items) => forall i :: 0 <= i < |items| ==> KeysClimb(items[i])
    case Obj(members) => Climbs(members) && forall i :: 0 <= i < |members| ==> KeysClimb(members[i].value)
    case _ => true
  }

  lemma {:induction false} NormClimbs(v: Value)
    requires Proper(v)
    ensures KeysClimb(Norm(v))
    decreases v
  {
    match v
    case Arr(items) =>
      if items != [] { NormItemAt(items, 0); }
      forall i | 0 <= i < |NormItems(items)| ensures KeysClimb(NormItems(items)[i]) {
        NormItemAt(items, i);
        NormClimbs(items[i]);
      }
    case Obj(members) =>
      var sorted := Sort(NormMembers(members));
      SortedNorms(members);
      AscendsIsClimbs(sorted);
      forall i | 0 <= i < |sorted| ensures KeysClimb(sorted[i].value) {
        assert sorted[i] in sorted;
        NormMemberIn(members, sorted[i]);
        var j :| 0 <= j < |members| && !members[j].value.Undefined? && sorted[i] == Member(members[j].key, Norm(members[j].value));
        NormClimbs(members[j].value);
      }
    case _ =>
  }

  /** What a canonical text reads as has its keys in order throughout. */
  lemma CanonicalKeysClimb(v: Value)
    requires Canonicalize(v).Ok? && Proper(v)
    ensures ReadValue(Canonicalize(v).value).Some? && ReadValue(Canonicalize(v).value).value.rest == []
    ensures KeysClimb(ReadValue(Canonicalize(v).value).value.value)
  {
    CanonicalReadsBack(v, []);
    assert Canonicalize(v).value + [] == Canonicalize(v).value;
    NormClimbs(v);
  }

  /** The words and signs are those of JSON. */
  lemma SpeltAsJson()
    ensures NULL == Ascii("null") && TRUE == Ascii("true") && FALSE == Ascii("false")
    ensures Ascii(",:[]{}") == [COMMA, COLON, OPEN_ARR, CLOSE_ARR, OPEN_OBJ, CLOSE_OBJ]
    ensures [QUOTE, BACKSLASH, MINUS] == ['"' as int, '\\' as int, '-' as int]
  {
  }

  /** Values that say the same print the same (or fail the same); values that print the same say the same. */
  lemma PrintsAlikeExactly(v: Value, w: Value)
    requires Proper(v) && Proper(w)
    ensures Alike(v, w) ==> Canonicalize(v) == Canonicalize(w)
    ensures Canonicalize(v).Ok? && Canonicalize(w).Ok? ==> (Canonicalize(v) == Canonicalize(w) <==> Alike(v, w))
  {
    NormMeansAlike(v, w);
    PrintsItsNorm(v);
    PrintsItsNorm(w);
    if Canonicalize(v).Ok? && Canonicalize(v) == Canonicalize(w) {
      CanonicalReadsBack(v, []);
      CanonicalReadsBack(w, []);
    }
  }

  /** The order in which members were inserted never matters, nor do undefined ones. */
  lemma InsertionOrderNeverMatters(ms: seq<Member<Value>>, ns: seq<Member<Value>>)
    requires Distinct(ms) && Distinct(ns)
    requires forall m: Member<Value> :: m.value.Undefined? || (m in ms <==> m in ns)
    ensures Canonicalize(Obj(ms)) == Canonicalize(Obj(ns))
  {
    SortedNorms(ms);
    SortedNorms(ns);
    forall m ensures m in NormMembers(ms) <==> m in NormMembers(ns) {
      NormMemberIn(ms, m);
      NormMemberIn(ns, m);
      if i :| 0 <= i < |ms| && !ms[i].value.Undefined? && m == Member(ms[i].key, Norm(ms[i].value)) {
        assert ms[i] in ms && ms[i] in ns;
      }
      if j :| 0 <= j < |ns| && !ns[j].value.Undefined? && m == Member(ns[j].key, Norm(ns[j].value)) {
        assert ns[j] in ns && ns[j] in ms;
      }
    }
    AscendingUnique(Sort(NormMembers(ms)), Sort(NormMembers(ns)));
    PrintsItsNorm(Obj(ms));
    PrintsItsNorm(Obj(ns));
  }

  // ----- What is refused -----

  /** Every number a safe integer, and nothing without a JSON form except as the value of a member. */
  predicate Printable(v: Value)
    decreases v
  {
    match v
    case Arr(items) => forall i :: 0 <= i < |items| ==> Printable(items[i])
    case Obj(members) => forall i :: 0 <= i < |members| && !members[i].value.Undefined? ==> Printable(members[i].value)
    case Num(Whole(n)) => Safe(n)
    case Num(_) => false
    case Undefined => false
    case Unsupported => false
    case _ => true
  }

  lemma {:induction false} JoinedOk(parts: seq<Result<Text, CanonError>>)
    ensures Joined(parts).Ok? <==> AllOk(parts)
  {
    if |parts| > 1 {
      JoinedOk(parts[1..]);
      assert forall i :: 1 <= i < |parts| ==> parts[i] == parts[1..][i - 1];
    }
  }

  lemma {:induction false} SortHolds<T>(ms: seq<Member<T>>, x: Member<T>)
    ensures x in Sort(ms) <==> x in ms
  {
    if ms != [] {
      SortHolds(ms[1..], x);
      InsertHolds(ms[0], Sort(ms[1..]), x);
      HeadAndTail(ms);
    }
  }

  lemma {:induction false} InsertHolds<T>(m: Member<T>, sorted: seq<Member<T>>, x: Member<T>)
    ensures x in Insert(m, sorted) <==> x == m || x in sorted
  {
    if sorted != [] && Less(sorted[0].key, m.key) {
      InsertHolds(m, sorted[1..], x);
      HeadAndTail(sorted);
    }
  }

  lemma ForAllOfCons<T>(holds: T -> bool, first: T, more: seq<T>)
    ensures var all := [first] + more;
            (forall i :: 0 <= i < |all| ==> holds(all[i])) <==> holds(first) && forall i :: 0 <= i < |more| ==> holds(more[i])
  {
    var all := [first] + more;
    assert all[0] == first;
    assert forall i :: 0 <= i < |more| ==> more[i] == all[i + 1];
    assert forall i :: 1 <= i < |all| ==> all[i] == more[i - 1];
  }

  lemma SortedOk(parts: seq<Member<Result<Text, CanonError>>>)
    ensures Joined(AllLabelled(Sort(parts))).Ok? <==> forall i :: 0 <= i < |parts| ==> Settled(parts[i])
  {
    var sorted := Sort(parts);
    JoinedOk(AllLabelled(sorted));
    forall x ensures x in sorted <==> x in parts { SortHolds(parts, x); }
    assert forall i :: 0 <= i < |sorted| ==> sorted[i] in sorted;
    assert forall i :: 0 <= i < |parts| ==> parts[i] in parts;
    assert forall i :: 0 <= i < |sorted| ==> (AllLabelled(sorted)[i].Ok? <==> Settled(sorted[i]));
  }

  /** The canonical text exists exactly for the printable values. */
  lemma {:induction false} RefusedExactly(v: Value)
    ensures Canonicalize(v).Ok? <==> Printable(v)
    decreases v
  {
    match v
    case Arr(items) =>
      ItemsOk(items);
      JoinedOk(CanonItems(items));
      assert Canonicalize(v).Ok? <==> Joined(CanonItems(items)).Ok?;
    case Obj(members) =>
      MembersOk(members);
      SortedOk(CanonMembers(members));
      assert Canonicalize(v).Ok? <==> Joined(AllLabelled(Sort(CanonMembers(members)))).Ok?;
      assert Printable(v) <==> (forall i :: 0 <= i < |members| ==> Prints(members[i]));
    case _ =>
  }

  lemma {:induction false} ItemsOk(items: seq<Value>)
    ensures AllOk(CanonItems(items)) <==> AllPrintable(items)
    decreases items
  {
    if items != [] {
      RefusedExactly(items[0]);
      ItemsOk(items[1..]);
      CanonItemsCons(items);
      AllOkCons(Canonicalize(items[0]), CanonItems(items[1..]));
      AllPrintableCons(items);
    }
  }

  predicate AllOk(parts: seq<Result<Text, CanonError>>) {
    forall i :: 0 <= i < |parts| ==> parts[i].Ok?
  }

  predicate AllPrintable(items: seq<Value>) {
    forall i :: 0 <= i < |items| ==> Printable(items[i])
  }

  lemma CanonItemsCons(items: seq<Value>)
    requires items != []
    ensures CanonItems(items) == [Canonicalize(items[0])] + CanonItems(items[1..])
  {
  }

  lemma AllOkCons(first: Result<Text, CanonError>, more: seq<Result<Text, CanonError>>)
    ensures AllOk([first] + more) <==> first.Ok? && AllOk(more)
  {
    var all := [first] + more;
    assert all[0] == first;
    if AllOk(all) {
      forall i | 0 <= i < |more| ensures more[i].Ok? { assert more[i] == all[i + 1]; }
    }
    if first.Ok? && AllOk(more) {
      forall i | 0 <= i < |all| ensures all[i].Ok? { if i > 0 { assert all[i] == more[i - 1]; } }
    }
  }

  lemma AllPrintableCons(items: seq<Value>)
    requires items != []
    ensures AllPrintable(items) <==> Printable(items[0]) && AllPrintable(items[1..])
  {
    var more := items[1..];
    if AllPrintable(items) {
      forall i | 0 <= i < |more| ensures Printable(more[i]) { assert more[i] == items[i + 1]; }
    }
    if Printable(items[0]) && AllPrintable(more) {
      forall i | 0 <= i < |items| ensures Printable(items[i]) { if i > 0 { assert items[i] == more[i - 1]; } }
    }
  }

  predicate Settled(m: Member<Result<Text, CanonError>>) {
    m.value.Ok?
  }

  predicate Prints(m: Member<Value>) {
    m.value.Undefined? || Printable(m.value)
  }

  lemma {:induction false} MembersOk(members: seq<Member<Value>>)
    ensures (forall i :: 0 <= i < |CanonMembers(members)| ==> Settled(CanonMembers(members)[i])) <==>
              forall i :: 0 <= i < |members| ==> Prints(members[i])
    decreases members
  {
    if members != [] {
      var m, others := members[0], members[1..];
      MembersOk(others);
      HeadAndTail(members);
      ForAllOfCons(Prints, m, others);
      assert (forall i :: 0 <= i < |members| ==> Prints(members[i])) <==>
             Prints(m) && forall i :: 0 <= i < |others| ==> Prints(others[i]);
      if m.value.Undefined? {
        assert CanonMembers(members) == CanonMembers(others);
      } else {
        RefusedExactly(m.value);
        var first, more := Member(m.key, Canonicalize(m.value)), CanonMembers(others);
        assert CanonMembers(members) == [first] + more;
        ForAllOfCons(Settled, first, more);
      }
    }
  }

  // ----- Which error -----

  lemma SafeExactly(n: int)
    ensures Safe(n) <==> -0x20_0000_0000_0000 < n < 0x20_0000_0000_0000
  {
  }

  /** What a value that is no array or object fails with. */
  lemma ScalarsFailWith(v: Value)
    requires !v.Arr? && !v.Obj?
    ensures Canonicalize(v) == Err(NonFiniteNumber) <==> v == Num(NonFinite)
    ensures Canonicalize(v) == Err(UnsafeNumber) <==>
              v == Num(Fractional) || (v.Num? && v.number.Whole? && !(-0x20_0000_0000_0000 < v.number.n < 0x20_0000_0000_0000))
    ensures Canonicalize(v) == Err(UnsupportedType) <==> v == Undefined || v == Unsupported
  {
  }

  /** Part `i` fails with `e`, and all parts before it are fine. */
  predicate FailsFirst(parts: seq<Result<Text, CanonError>>, i: nat, e: CanonError) {
    i < |parts| && parts[i] == Err(e) && forall j :: 0 <= j < i ==> parts[j].Ok?
  }

  lemma {:induction false} JoinedFails(parts: seq<Result<Text, CanonError>>) returns (i: nat)
    requires Joined(parts).Err?
    ensures FailsFirst(parts, i, Joined(parts).error)
  {
    i := 0;
    if parts[0].Ok? && |parts| > 1 {
      var j := JoinedFails(parts[1..]);
      i := j + 1;
      assert parts[i] == parts[1..][j];
      assert forall k :: 1 <= k < i ==> parts[k] == parts[1..][k - 1];
    }
  }

  lemma {:induction false} CanonItemAt(items: seq<Value>, i: nat)
    ensures |CanonItems(items)| == |items|
    ensures i < |items| ==> CanonItems(items)[i] == Canonicalize(items[i])
  {
    if items != [] {
      CanonItemAt(items[1..], if i == 0 then 0 else i - 1);
    }
  }

  /** An array fails as the first of its items that fails. */
  lemma ArraysFailInOrder(items: seq<Value>) returns (i: nat)
    requires Canonicalize(Arr(items)).Err?
    ensures i < |items| && Canonicalize(items[i]) == Canonicalize(Arr(items))
    ensures forall j :: 0 <= j < i ==> Canonicalize(items[j]).Ok?
  {
    i := JoinedFails(CanonItems(items));
    CanonItemAt(items, i);
    forall j | 0 <= j < i ensures Canonicalize(items[j]).Ok? {
      CanonItemAt(items, j);
    }
  }

  lemma {:induction false} PrintMemberAt(members: seq<Member<Value>>, i: nat)
    requires i < |members|
    ensures PrintMembers(members)[i] == Member(members[i].key, Print(members[i].value))
  {
    if i > 0 {
      PrintMemberAt(members[1..], i - 1);
    }
  }

  /** An object fails as the first of its members, in the order of their keys, that fails. */
  lemma ObjectsFailInOrder(members: seq<Member<Value>>) returns (m: Member<Value>)
    requires Distinct(members) && Canonicalize(Obj(members)).Err?
    ensures m in members && !m.value.Undefined? && Canonicalize(m.value) == Canonicalize(Obj(members))
    ensures forall other :: other in members && !other.value.Undefined? && Precedes(other.key, m.key) ==>
              Canonicalize(other.value).Ok?
  {
    var sorted := Sort(NormMembers(members));
    PrintsItsNorm(Obj(members));
    SortedNorms(members);
    var i := JoinedFails(AllLabelled(PrintMembers(sorted)));
    PrintMemberAt(sorted, i);
    assert sorted[i] in sorted;
    NormMemberIn(members, sorted[i]);
    var k :| 0 <= k < |members| && !members[k].value.Undefined? && sorted[i] == Member(members[k].key, Norm(members[k].value));
    m := members[k];
    PrintsItsNorm(m.value);
    forall other | other in members && !other.value.Undefined? && Precedes(other.key, m.key)
      ensures Canonicalize(other.value).Ok?
    {
      BeforeIsFine(members, sorted, i, other);
    }
  }

  lemma BeforeIsFine(members: seq<Member<Value>>, sorted: seq<Member<Value>>, i: nat, other: Member<Value>)
    requires Distinct(members) && sorted == Sort(NormMembers(members)) && i < |sorted|
    requires forall j :: 0 <= j < i ==> AllLabelled(PrintMembers(sorted))[j].Ok?
    requires other in members && !other.value.Undefined? && Precedes(other.key, sorted[i].key)
    ensures Canonicalize(other.value).Ok?
  {
    SortedNorms(members);
    var normal := Member(other.key, Norm(other.value));
    NormMemberIn(members, normal);
    var j :| 0 <= j < |sorted| && sorted[j] == normal;
    LessExactly(other.key, sorted[i].key);
    LessIsTotal(other.key, sorted[i].key);
    PrintMemberAt(sorted, j);
    assert AllLabelled(PrintMembers(sorted))[j].Ok?;
    PrintsItsNorm(other.value);
  }

  // ----- The text is well-formed UTF-16, whatever the strings in the value hold -----

  lemma QuotedIsWellFormed(s: Text)
    ensures WellFormed(Quoted(s))
  {
    EscapedIsWellFormed(s);
    AsciiIsWellFormed([QUOTE]);
    WellFormedAppend([QUOTE], Escaped(s));
    WellFormedAppend([QUOTE] + Escaped(s), [QUOTE]);
  }

  lemma ScalarIsWellFormed(v: Value)
    requires !v.Arr? && !v.Obj? && Scalar(v).Ok?
    ensures WellFormed(Scalar(v).value)
  {
    if v.Str? { QuotedIsWellFormed(v.s); } else { AsciiIsWellFormed(Scalar(v).value); }
  }

  predicate AllWellFormed(parts: seq<Result<Text, CanonError>>) {
    forall i :: 0 <= i < |parts| && parts[i].Ok? ==> WellFormed(parts[i].value)
  }

  lemma Inserted(left: Text, u: Unit, right: Text)
    requires WellFormed(left) && u < 128 && WellFormed(right)
    ensures WellFormed(left + ([u] + right))
  {
    AsciiIsWellFormed([u]);
    WellFormedAppend([u], right);
    WellFormedAppend(left, [u] + right);
  }

  lemma {:induction false} JoinedIsWellFormed(parts: seq<Result<Text, CanonError>>)
    requires AllWellFormed(parts) && Joined(parts).Ok?
    ensures WellFormed(Joined(parts).value)
  {
    if parts != [] {
      JoinedSplits(parts);
      assert WellFormed(parts[0].value);
      if |parts| > 1 {
        JoinedIsWellFormed(parts[1..]);
        Inserted(parts[0].value, COMMA, Joined(parts[1..]).value);
      }
    }
  }

  lemma BetweenIsWellFormed(open: Unit, body: Text, close: Unit)
    requires open < 128 && close < 128 && WellFormed(body)
    ensures WellFormed([open] + (body + [close]))
  {
    Inserted(body, close, []);
    assert body + ([close] + []) == body + [close];
    Inserted([], open, body + [close]);
    assert [] + ([open] + (body + [close])) == [open] + (body + [close]);
  }

  lemma {:induction false} PrintIsWellFormed(v: Value)
    requires Print(v).Ok?
    ensures WellFormed(Print(v).value)
    decreases v, 1
  {
    match v
    case Arr(items) =>
      ItemsAreWellFormed(items);
      JoinedIsWellFormed(PrintItems(items));
      BetweenIsWellFormed(OPEN_ARR, Joined(PrintItems(items)).value, CLOSE_ARR);
    case Obj(members) =>
      MembersAreWellFormed(members);
      JoinedIsWellFormed(AllLabelled(PrintMembers(members)));
      BetweenIsWellFormed(OPEN_OBJ, Joined(AllLabelled(PrintMembers(members))).value, CLOSE_OBJ);
    case _ => ScalarIsWellFormed(v);
  }

  lemma {:induction false} ItemsAreWellFormed(items: seq<Value>)
    ensures AllWellFormed(PrintItems(items))
    decreases items, 0
  {
    if items != [] {
      ItemsSplit(items);
      if Print(items[0]).Ok? { PrintIsWellFormed(items[0]); }
      ItemsAreWellFormed(items[1..]);
      HeadAndTail(PrintItems(items));
    }
  }

  lemma {:induction false} MembersAreWellFormed(members: seq<Member<Value>>)
    ensures AllWellFormed(AllLabelled(PrintMembers(members)))
    decreases members, 0
  {
    if members != [] {
      var m := members[0];
      MembersSplit(members);
      if Print(m.value).Ok? {
        PrintIsWellFormed(m.value);
        QuotedIsWellFormed(m.key);
        Inserted(Quoted(m.key), COLON, Print(m.value).value);
      }
      MembersAreWellFormed(members[1..]);
      HeadAndTail(AllLabelled(PrintMembers(members)));
    }
  }

  /** So encoding it loses nothing. */
  lemma CanonicalIsWellFormed(v: Value)
    requires Canonicalize(v).Ok?
    ensures WellFormed(Canonicalize(v).value)
  {
    PrintsItsNorm(v);
    PrintIsWellFormed(Norm(v));
  }
}
