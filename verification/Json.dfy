/** JSON documents as written (ordered members, number lexemes) and as `encoding/json`
    decodes them into `any` (unordered objects, float64 numbers). */
module Json {

  datatype Option<+T> = None | Some(value: T)

  /** A document as it stands in a `json.RawMessage`. */
  datatype Raw =
    | RawNull
    | RawBool(b: bool)
    | RawNumber(lexeme: string)
    | RawString(s: string)
    | RawArray(items: seq<Raw>)
    | RawObject(members: seq<Member>)

  datatype Member = Member(key: string, value: Raw)

  /** A decoded document. */
  datatype Value =
    | Null
    | Bool(b: bool)
    | Number(spelling: string)
    | String(s: string)
    | Array(items: seq<Value>)
    | Object(members: map<string, Value>)

  /** How a number lexeme decodes: the canonical spelling of the nearest float64,
      or `None` when the lexeme is out of range and `json.Unmarshal` fails. */
  type Float64 = string -> Option<string>

  function Decode(raw: Raw, f: Float64): (v: Option<Value>)
    decreases raw, 1
  {
    match raw
    case RawNull => Some(Null)
    case RawBool(b) => Some(Bool(b))
    case RawNumber(x) => (match f(x) case None => None case Some(y) => Some(Number(y)))
    case RawString(s) => Some(String(s))
    case RawArray(items) => (match DecodeItems(items, f) case None => None case Some(vs) => Some(Array(vs)))
    case RawObject(ms) => (match DecodeMembers(ms, f) case None => None case Some(m) => Some(Object(m)))
  }

  function DecodeItems(items: seq<Raw>, f: Float64): (vs: Option<seq<Value>>)
    decreases items, 0
  {
    if items == [] then Some([])
    else
      match (Decode(items[0], f), DecodeItems(items[1..], f))
      case (Some(v), Some(vs)) => Some([v] + vs)
      case _ => None
  }

  /** Later members override earlier ones with the same key. */
  function DecodeMembers(ms: seq<Member>, f: Float64): (m: Option<map<string, Value>>)
    decreases ms, 0
  {
    if ms == [] then Some(map[])
    else
      match (DecodeMembers(ms[..|ms| - 1], f), Decode(ms[|ms| - 1].value, f))
      case (Some(m), Some(v)) => Some(m[ms[|ms| - 1].key := v])
      case _ => None
  }

  predicate DistinctKeys(ms: seq<Member>) {
    forall i, j :: 0 <= i < j < |ms| ==> ms[i].key != ms[j].key
  }

  /** `m` holds exactly the decoded members. */
  ghost predicate Holds(ms: seq<Member>, f: Float64, m: map<string, Value>) {
    && m.Keys == Keys(ms)
    && forall x :: x in ms ==> Decode(x.value, f) == Some(m[x.key])
  }

  lemma {:induction false} MembersDecodeTogether(ms: seq<Member>, f: Float64)
    ensures DecodeMembers(ms, f).Some? <==> forall x :: x in ms ==> Decode(x.value, f).Some?
  {
    if ms != [] {
      var front, last := ms[..|ms| - 1], ms[|ms| - 1];
      MembersDecodeTogether(front, f);
      assert ms == front + [last];
      assert forall x :: x in ms <==> x in front || x == last;
    }
  }

  lemma LastMemberDecodes(ms: seq<Member>, f: Float64)
    requires ms != [] && DecodeMembers(ms, f).Some?
    ensures var front, last := ms[..|ms| - 1], ms[|ms| - 1];
            && ms == front + [last]
            && DecodeMembers(front, f).Some? && Decode(last.value, f).Some?
            && DecodeMembers(ms, f).value == DecodeMembers(front, f).value[last.key := Decode(last.value, f).value]
  {
  }

  lemma {:induction false} DecodedMembersHold(ms: seq<Member>, f: Float64)
    requires DistinctKeys(ms) && DecodeMembers(ms, f).Some?
    ensures Holds(ms, f, DecodeMembers(ms, f).value)
  {
    if ms != [] {
      var front, last := ms[..|ms| - 1], ms[|ms| - 1];
      LastMemberDecodes(ms, f);
      DecodedMembersHold(front, f);
      HoldsAppend(front, last, f, DecodeMembers(front, f).value);
    }
  }

  lemma HoldsAppend(front: seq<Member>, last: Member, f: Float64, m: map<string, Value>)
    requires Holds(front, f, m) && DistinctKeys(front + [last]) && Decode(last.value, f).Some?
    ensures Holds(front + [last], f, m[last.key := Decode(last.value, f).value])
  {
    forall x | x in front ensures x.key != last.key {
      var i :| 0 <= i < |front| && front[i] == x;
      assert (front + [last])[i].key != (front + [last])[|front|].key;
    }
    assert forall x :: x in front + [last] <==> x in front || x == last;
  }

  function Keys(ms: seq<Member>): set<string> {
    set x | x in ms :: x.key
  }

  /** The same document with the members of its objects, at any depth, in another order
      (section 4 of RFC 8259). */
  predicate Reordered(a: Raw, b: Raw) {
    match (a, b)
    case (RawArray(x), RawArray(y)) => |x| == |y| && forall i :: 0 <= i < |x| ==> Reordered(x[i], y[i])
    case (RawObject(x), RawObject(y)) =>
      && DistinctKeys(x) && DistinctKeys(y) && Keys(x) == Keys(y)
      && forall m, n :: m in x && n in y && m.key == n.key ==> Reordered(m.value, n.value)
    case _ => a == b
  }

  /** Member order does not survive decoding, at any depth. */
  lemma {:induction false} MemberOrderIsForgotten(a: Raw, b: Raw, f: Float64)
    requires Reordered(a, b)
    ensures Decode(a, f) == Decode(b, f)
  {
    if a.RawArray? && b.RawArray? {
      forall i | 0 <= i < |a.items| ensures Decode(a.items[i], f) == Decode(b.items[i], f) {
        MemberOrderIsForgotten(a.items[i], b.items[i], f);
      }
      ItemsDecodeAlike(a.items, b.items, f);
    } else if a.RawObject? && b.RawObject? {
      forall m, n | m in a.members && n in b.members && m.key == n.key
        ensures Decode(m.value, f) == Decode(n.value, f)
      {
        MemberOrderIsForgotten(m.value, n.value, f);
      }
      MembersDecodeAlike(a.members, b.members, f);
    }
  }

  lemma {:induction false} ItemsDecodeAlike(x: seq<Raw>, y: seq<Raw>, f: Float64)
    requires |x| == |y| && forall i :: 0 <= i < |x| ==> Decode(x[i], f) == Decode(y[i], f)
    ensures DecodeItems(x, f) == DecodeItems(y, f)
  {
    if x != [] {
      ItemsDecodeAlike(x[1..], y[1..], f);
    }
  }

  lemma MembersDecodeAlike(x: seq<Member>, y: seq<Member>, f: Float64)
    requires DistinctKeys(x) && DistinctKeys(y) && Keys(x) == Keys(y)
    requires forall m, n :: m in x && n in y && m.key == n.key ==> Decode(m.value, f) == Decode(n.value, f)
    ensures DecodeMembers(x, f) == DecodeMembers(y, f)
  {
    MembersDecodeTogether(x, f);
    MembersDecodeTogether(y, f);
    forall m | m in x ensures exists n :: n in y && n.key == m.key && Decode(n.value, f) == Decode(m.value, f) {
      assert m.key in Keys(y);
    }
    forall n | n in y ensures exists m :: m in x && m.key == n.key && Decode(n.value, f) == Decode(m.value, f) {
      assert n.key in Keys(x);
    }
    if DecodeMembers(x, f).Some? && DecodeMembers(y, f).Some? {
      DecodedMembersHold(x, f);
      DecodedMembersHold(y, f);
      HeldAlike(x, y, f, DecodeMembers(x, f).value, DecodeMembers(y, f).value);
    }
  }

  lemma HeldAlike(x: seq<Member>, y: seq<Member>, f: Float64, m: map<string, Value>, n: map<string, Value>)
    requires Holds(x, f, m) && Holds(y, f, n) && Keys(x) == Keys(y)
    requires forall a, b :: a in x && b in y && a.key == b.key ==> Decode(a.value, f) == Decode(b.value, f)
    ensures m == n
  {
    forall k | k in m ensures k in n && m[k] == n[k] {
      assert k in Keys(x) && k in Keys(y);
      var a :| a in x && a.key == k;
      var b :| b in y && b.key == k;
    }
    assert m.Keys == Keys(x) == Keys(y) == n.Keys;
  }

  // ------------------------------------------------------- what decoding keeps

  /** Of the members with one key, the last counts. */
  predicate Counts(ms: seq<Member>, i: int) {
    0 <= i < |ms| && forall j :: i < j < |ms| ==> ms[j].key != ms[i].key
  }

  /** Every number of the document has a float64, members that do not count included. */
  predicate InRange(raw: Raw, f: Float64) {
    match raw
    case RawNumber(x) => f(x).Some?
    case RawArray(items) => forall i :: 0 <= i < |items| ==> InRange(items[i], f)
    case RawObject(ms) => forall i :: 0 <= i < |ms| ==> InRange(ms[i].value, f)
    case _ => true
  }

  /** The value a document stands for. */
  predicate Means(raw: Raw, v: Value, f: Float64) {
    match raw
    case RawNull => v == Null
    case RawBool(b) => v == Bool(b)
    case RawNumber(x) => f(x).Some? && v == Number(f(x).value)
    case RawString(s) => v == String(s)
    case RawArray(items) =>
      v.Array? && |v.items| == |items| && forall i :: 0 <= i < |items| ==> Means(items[i], v.items[i], f)
    case RawObject(ms) =>
      && v.Object? && v.members.Keys == Keys(ms)
      && forall i :: 0 <= i < |ms| && Counts(ms, i) ==> Means(ms[i].value, v.members[ms[i].key], f)
  }

  /** The same document up to the order of members, members that do not count, and number
      lexemes with one float64. */
  predicate Alike(a: Raw, b: Raw, f: Float64) {
    match (a, b)
    case (RawNumber(x), RawNumber(y)) => f(x) == f(y)
    case (RawArray(x), RawArray(y)) => |x| == |y| && forall i :: 0 <= i < |x| ==> Alike(x[i], y[i], f)
    case (RawObject(x), RawObject(y)) =>
      && Keys(x) == Keys(y)
      && forall i, j :: 0 <= i < |x| && 0 <= j < |y| && Counts(x, i) && Counts(y, j) && x[i].key == y[j].key ==>
           Alike(x[i].value, y[j].value, f)
    case _ => a == b
  }

  lemma {:induction false} SomeMemberCounts(ms: seq<Member>, k: string) returns (i: nat)
    requires k in Keys(ms)
    ensures i < |ms| && ms[i].key == k && Counts(ms, i)
  {
    i := |ms| - 1;
    if ms[i].key != k {
      var front := ms[..i];
      assert ms == front + [ms[i]];
      i := SomeMemberCounts(front, k);
    }
  }

  /** `m` holds exactly what the members that count decode to. */
  ghost predicate HoldsLast(ms: seq<Member>, f: Float64, m: map<string, Value>) {
    && m.Keys == Keys(ms)
    && forall i :: 0 <= i < |ms| && Counts(ms, i) ==> Decode(ms[i].value, f) == Some(m[ms[i].key])
  }

  lemma {:induction false} LastMembersHold(ms: seq<Member>, f: Float64)
    requires DecodeMembers(ms, f).Some?
    ensures HoldsLast(ms, f, DecodeMembers(ms, f).value)
  {
    if ms != [] {
      var front, last := ms[..|ms| - 1], ms[|ms| - 1];
      LastMemberDecodes(ms, f);
      LastMembersHold(front, f);
      assert Keys(ms) == Keys(front) + {last.key};
      forall i | 0 <= i < |ms| && Counts(ms, i)
        ensures Decode(ms[i].value, f) == Some(DecodeMembers(ms, f).value[ms[i].key])
      {
        if i < |front| {
          assert ms[i] == front[i] && Counts(front, i) && ms[i].key != ms[|front|].key;
        }
      }
    }
  }

  lemma {:induction false} ItemsDecodeTogether(items: seq<Raw>, f: Float64)
    ensures DecodeItems(items, f).Some? <==> forall i :: 0 <= i < |items| ==> Decode(items[i], f).Some?
    ensures DecodeItems(items, f).Some? ==>
              && |DecodeItems(items, f).value| == |items|
              && forall i :: 0 <= i < |items| ==> Decode(items[i], f) == Some(DecodeItems(items, f).value[i])
  {
    if items != [] {
      ItemsDecodeTogether(items[1..], f);
      assert forall i :: 0 < i < |items| ==> items[i] == items[1..][i - 1];
    }
  }

  /** Decoding fails exactly for a number out of range. */
  lemma {:induction false} DecodesInRange(raw: Raw, f: Float64)
    ensures Decode(raw, f).Some? <==> InRange(raw, f)
  {
    match raw
    case RawArray(items) =>
      forall i | 0 <= i < |items| ensures Decode(items[i], f).Some? <==> InRange(items[i], f) {
        DecodesInRange(items[i], f);
      }
      ItemsDecodeTogether(items, f);
    case RawObject(ms) =>
      forall i | 0 <= i < |ms| ensures Decode(ms[i].value, f).Some? <==> InRange(ms[i].value, f) {
        DecodesInRange(ms[i].value, f);
      }
      MembersDecodeTogether(ms, f);
      assert forall x :: x in ms <==> exists i :: 0 <= i < |ms| && ms[i] == x;
    case _ =>
  }

  lemma {:induction false} DecodedMeans(raw: Raw, f: Float64)
    requires Decode(raw, f).Some?
    ensures Means(raw, Decode(raw, f).value, f)
  {
    DecodesInRange(raw, f);
    match raw
    case RawArray(items) =>
      ItemsDecodeTogether(items, f);
      forall i | 0 <= i < |items| ensures Means(items[i], Decode(raw, f).value.items[i], f) {
        DecodedMeans(items[i], f);
      }
    case RawObject(ms) =>
      LastMembersHold(ms, f);
      forall i | 0 <= i < |ms| && Counts(ms, i)
        ensures Means(ms[i].value, Decode(raw, f).value.members[ms[i].key], f)
      {
        DecodedMeans(ms[i].value, f);
      }
    case _ =>
  }

  /** A document means one value at most, and documents that are alike mean the same. */
  lemma {:induction false} AlikeMeansTheSame(a: Raw, v: Value, b: Raw, w: Value, f: Float64)
    requires Means(a, v, f) && Means(b, w, f)
    ensures v == w <==> Alike(a, b, f)
    decreases a
  {
    if a.RawArray? && b.RawArray? && |a.items| == |b.items| {
      forall i | 0 <= i < |a.items| ensures v.items[i] == w.items[i] <==> Alike(a.items[i], b.items[i], f) {
        AlikeMeansTheSame(a.items[i], v.items[i], b.items[i], w.items[i], f);
      }
    } else if a.RawObject? && b.RawObject? {
      forall i, j | 0 <= i < |a.members| && 0 <= j < |b.members| && Counts(a.members, i) && Counts(b.members, j)
                    && a.members[i].key == b.members[j].key
        ensures v.members[a.members[i].key] == w.members[b.members[j].key] <==>
                  Alike(a.members[i].value, b.members[j].value, f)
      {
        AlikeMeansTheSame(a.members[i].value, v.members[a.members[i].key],
                          b.members[j].value, w.members[b.members[j].key], f);
      }
      ObjectsAlike(a.members, v.members, b.members, w.members, f);
    }
  }

  /** Counting members with the same key stand for the same value exactly when they are alike. */
  ghost predicate MembersAgree(x: seq<Member>, v: map<string, Value>, y: seq<Member>, w: map<string, Value>, f: Float64)
    requires v.Keys == Keys(x) && w.Keys == Keys(y)
  {
    forall i, j :: 0 <= i < |x| && 0 <= j < |y| && Counts(x, i) && Counts(y, j) && x[i].key == y[j].key ==>
      (v[x[i].key] == w[y[j].key] <==> Alike(x[i].value, y[j].value, f))
  }

  lemma ObjectsAlike(x: seq<Member>, v: map<string, Value>, y: seq<Member>, w: map<string, Value>, f: Float64)
    requires v.Keys == Keys(x) && w.Keys == Keys(y) && MembersAgree(x, v, y, w, f)
    ensures v == w <==> Alike(RawObject(x), RawObject(y), f)
  {
    if Alike(RawObject(x), RawObject(y), f) {
      forall k | k in v ensures k in w && v[k] == w[k] {
        var i := SomeMemberCounts(x, k);
        var j := SomeMemberCounts(y, k);
      }
    }
  }

  /** What decoding does, for every document: it fails exactly for a number out of range, and
      otherwise yields the value the document stands for, and no other. */
  lemma DecodesToItsMeaning(raw: Raw, v: Value, f: Float64)
    ensures Decode(raw, f) == Some(v) <==> InRange(raw, f) && Means(raw, v, f)
  {
    DecodesInRange(raw, f);
    if InRange(raw, f) {
      DecodedMeans(raw, f);
      AlikeToItself(raw, f);
      if Means(raw, v, f) {
        AlikeMeansTheSame(raw, v, raw, Decode(raw, f).value, f);
      }
    }
  }

  lemma {:induction false} AlikeToItself(raw: Raw, f: Float64)
    ensures Alike(raw, raw, f)
  {
    match raw
    case RawArray(items) =>
      forall i | 0 <= i < |items| ensures Alike(items[i], items[i], f) { AlikeToItself(items[i], f); }
    case RawObject(ms) =>
      forall i, j | 0 <= i < |ms| && 0 <= j < |ms| && Counts(ms, i) && Counts(ms, j) && ms[i].key == ms[j].key
        ensures Alike(ms[i].value, ms[j].value, f)
      {
        assert i == j;
        AlikeToItself(ms[i].value, f);
      }
    case _ =>
  }

  /** Nothing else is forgotten: two documents decode to one value exactly when they are alike
      and their numbers are in range. */
  lemma DecodeAlikeIff(a: Raw, b: Raw, f: Float64)
    ensures Decode(a, f).Some? && Decode(a, f) == Decode(b, f) <==>
              InRange(a, f) && InRange(b, f) && Alike(a, b, f)
  {
    DecodesInRange(a, f);
    DecodesInRange(b, f);
    if InRange(a, f) && InRange(b, f) {
      DecodedMeans(a, f);
      DecodedMeans(b, f);
      AlikeMeansTheSame(a, Decode(a, f).value, b, Decode(b, f).value, f);
    }
  }

  /** A `json.RawMessage` field: empty when the field was absent from the document. */
  datatype RawField = Absent | Present(raw: Raw)

  /** `jsonRawEqual` (internal/apply/merge.go:256): `None` is the error return.  Comparing the
      re-marshalled bytes compares the decoded values, because marshalling sorts object keys. */
  function JsonRawEqual(a: RawField, b: RawField, f: Float64): (r: Option<bool>)
  {
    match (a, b)
    case (Absent, Absent) => Some(true)
    case (Present(x), Present(y)) =>
      (match (Decode(x, f), Decode(y, f))
       case (Some(v), Some(w)) => Some(v == w)
       case _ => None)
    case _ => None
  }
}
