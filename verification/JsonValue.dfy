/** JSON values. An object is a `BTreeMap<String, Json>`, modelled as its in-order list of
    entries; floating point numbers are kept as the literal they were read from. */
module JsonValue {
  import opened Common

  /** The pieces of a float literal: sign, integer part, fraction digits, signed exponent digits. */
  datatype Float = Float(neg: bool, whole: nat, fraction: Option<string>, exponent: Option<Exponent>)

  datatype Exponent = Exponent(neg: bool, digits: string)

  datatype Json =
    | I64(i: int)
    | U64(u: nat)
    | F64(f: Float)
    | String(s: string)
    | Boolean(b: bool)
    | Array(elems: seq<Json>)
    | Object(members: seq<Member>)
    | Null

  datatype Member = Member(key: string, value: Json)

  datatype ErrorCode =
    | InvalidSyntax
    | InvalidNumber
    | EOFWhileParsingObject
    | EOFWhileParsingArray
    | EOFWhileParsingValue
    | EOFWhileParsingString
    | KeyMustBeAString
    | ExpectedColon
    | TrailingCharacters
    | TrailingComma
    | InvalidEscape
    | InvalidUnicodeCodePoint
    | LoneLeadingSurrogateInHexEscape
    | UnexpectedEndOfHexEscape

  /** `String` ordering: UTF-8 byte order, which is code point order. */
  predicate Less(a: string, b: string) {
    b != "" && (a == "" || a[0] < b[0] || (a[0] == b[0] && Less(a[1..], b[1..])))
  }

  lemma LessIrreflexive(a: string)
    ensures !Less(a, a)
  {
  }

  lemma {:induction false} LessTransitive(a: string, b: string, c: string)
    requires Less(a, b) && Less(b, c)
    ensures Less(a, c)
  {
    if a != "" && a[0] == b[0] && b[0] == c[0] {
      LessTransitive(a[1..], b[1..], c[1..]);
    }
  }

  lemma {:induction false} LessTotal(a: string, b: string)
    ensures a == b || Less(a, b) || Less(b, a)
  {
    if a != "" && b != "" && a[0] == b[0] {
      LessTotal(a[1..], b[1..]);
      assert a == [a[0]] + a[1..] && b == [b[0]] + b[1..];
    }
  }

  /** `BTreeMap::insert`. */
  function Insert(ms: seq<Member>, key: string, value: Json): seq<Member> {
    if ms == [] then [Member(key, value)]
    else if ms[0].key == key then [Member(key, value)] + ms[1..]
    else if Less(key, ms[0].key) then [Member(key, value)] + ms
    else [ms[0]] + Insert(ms[1..], key, value)
  }

  predicate Sorted(ms: seq<Member>) {
    forall i, j :: 0 <= i < j < |ms| ==> Less(ms[i].key, ms[j].key)
  }

  ghost predicate Maps(ms: seq<Member>, key: string, value: Json) {
    Member(key, value) in ms
  }

  lemma {:induction false} InsertMembers(ms: seq<Member>, key: string, value: Json, m: Member)
    requires Sorted(ms)
    ensures m in Insert(ms, key, value) <==> m == Member(key, value) || (m in ms && m.key != key)
  {
    if ms != [] {
      LessIrreflexive(key);
      if ms[0].key == key {
        assert forall i :: 1 <= i < |ms| ==> Less(key, ms[i].key);
        assert ms == [ms[0]] + ms[1..];
      } else if Less(key, ms[0].key) {
        forall i | 0 <= i < |ms| ensures ms[i].key != key {
          if i > 0 { LessTransitive(key, ms[0].key, ms[i].key); }
        }
      } else {
        InsertMembers(ms[1..], key, value, m);
        assert ms == [ms[0]] + ms[1..];
      }
    }
  }

  /** The entry list stays in key order, maps the new key to the new value and nothing else changes. */
  lemma {:induction false} InsertIsMapUpdate(ms: seq<Member>, key: string, value: Json)
    requires Sorted(ms)
    ensures Sorted(Insert(ms, key, value))
    ensures forall k, v :: Maps(Insert(ms, key, value), k, v) <==>
                             if k == key then v == value else Maps(ms, k, v)
  {
    InsertSorted(ms, key, value);
    forall k, v ensures Maps(Insert(ms, key, value), k, v) <==>
                          if k == key then v == value else Maps(ms, k, v)
    {
      InsertMembers(ms, key, value, Member(k, v));
    }
  }

  lemma {:induction false} InsertSorted(ms: seq<Member>, key: string, value: Json)
    requires Sorted(ms)
    ensures Sorted(Insert(ms, key, value))
  {
    if ms == [] || ms[0].key == key {
    } else if Less(key, ms[0].key) {
      forall i | 0 <= i < |ms| ensures Less(key, ms[i].key) {
        if i > 0 { LessTransitive(key, ms[0].key, ms[i].key); }
      }
    } else {
      var tail := Insert(ms[1..], key, value);
      InsertSorted(ms[1..], key, value);
      LessTotal(key, ms[0].key);
      forall i | 0 <= i < |tail| ensures Less(ms[0].key, tail[i].key) {
        InsertMembers(ms[1..], key, value, tail[i]);
        assert tail[i] in tail;
        if tail[i] != Member(key, value) {
          var j :| 0 <= j < |ms[1..]| && ms[1..][j] == tail[i];
          assert ms[j + 1] == tail[i];
        }
      }
    }
  }

  /** A key above all present ones goes last. */
  lemma {:induction false} InsertAtEnd(ms: seq<Member>, key: string, value: Json)
    requires forall i :: 0 <= i < |ms| ==> Less(ms[i].key, key)
    ensures Insert(ms, key, value) == ms + [Member(key, value)]
  {
    if ms != [] {
      LessIrreflexive(key);
      if Less(key, ms[0].key) {
        LessTransitive(key, ms[0].key, key);
      }
      InsertAtEnd(ms[1..], key, value);
      assert ms == [ms[0]] + ms[1..];
    }
  }
}
