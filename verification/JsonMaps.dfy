/** A map written in the order of its keys, held by the parser in the order of their texts, and put
    together again by the decoder. */
module JsonMaps {
  import opened Common
  import opened Decimals
  import opened JsonValue
  import opened JsonPrinter
  import opened JsonTyped

  // The order of keys ------------------------------------------------------------------------

  lemma BeforeStrict(a: KeyVal, b: KeyVal)
    ensures !KeyBefore(a, a)
    ensures KeyBefore(a, b) ==> !KeyBefore(b, a)
    ensures a == b || KeyBefore(a, b) || KeyBefore(b, a)
  {
    if a.KStr? {
      LessIrreflexive(a.s);
      if b.KStr? {
        LessTotal(a.s, b.s);
        if Less(a.s, b.s) && Less(b.s, a.s) { LessTransitive(a.s, b.s, a.s); }
      }
    }
  }

  lemma BeforeTransitive(a: KeyVal, b: KeyVal, c: KeyVal)
    requires KeyBefore(a, b) && KeyBefore(b, c)
    ensures KeyBefore(a, c)
  {
    if a.KStr? && c.KStr? { LessTransitive(a.s, b.s, c.s); }
  }

  /** Two maps in key order with the same entries are the same. */
  lemma {:induction false} SortedSame(a: seq<MapEntry>, b: seq<MapEntry>)
    requires SortedEntries(a) && SortedEntries(b) && multiset(a) == multiset(b)
    ensures a == b
  {
    hide KeyBefore;
    assert |multiset(a)| == |a| && |multiset(b)| == |b|;
    if a != [] {
      SameFirst(a, b);
      assert a == [a[0]] + a[1..] && b == [b[0]] + b[1..];
      assert multiset(a[1..]) == multiset(a) - multiset{a[0]} && multiset(b[1..]) == multiset(b) - multiset{b[0]};
      SortedSame(a[1..], b[1..]);
    }
  }

  lemma SameFirst(a: seq<MapEntry>, b: seq<MapEntry>)
    requires SortedEntries(a) && SortedEntries(b) && multiset(a) == multiset(b) && a != [] && b != []
    ensures a[0] == b[0]
  {
    hide KeyBefore;
    assert a[0] in multiset(b) && b[0] in multiset(a);
    var i :| 0 <= i < |b| && b[i] == a[0];
    var j :| 0 <= j < |a| && a[j] == b[0];
    if i > 0 && j > 0 { BeforeStrict(a[0].key, b[0].key); }
  }

  // Insertion --------------------------------------------------------------------------------

  ghost predicate NewKey(es: seq<MapEntry>, k: KeyVal) {
    forall i :: 0 <= i < |es| ==> es[i].key != k
  }

  lemma {:induction false} InsertEntrySorted(es: seq<MapEntry>, e: MapEntry)
    requires SortedEntries(es) && NewKey(es, e.key)
    ensures SortedEntries(InsertEntry(es, e)) && multiset(InsertEntry(es, e)) == multiset(es) + multiset{e}
  {
    hide KeyBefore;
    if es != [] {
      var tail := es[1..];
      assert es == [es[0]] + tail;
      if KeyBefore(e.key, es[0].key) {
        forall i | 0 <= i < |es| ensures KeyBefore(e.key, es[i].key) {
          if i > 0 { BeforeTransitive(e.key, es[0].key, es[i].key); }
        }
      } else {
        BeforeStrict(e.key, es[0].key);
        InsertEntrySorted(tail, e);
        var more := InsertEntry(tail, e);
        forall i | 0 <= i < |more| ensures KeyBefore(es[0].key, more[i].key) {
          assert more[i] in multiset(more);
        }
      }
    }
  }

  /** All of `os`, the last first, inserted into `es`. */
  ghost function Inserted(os: seq<MapEntry>, n: nat, es: seq<MapEntry>): seq<MapEntry>
    requires n <= |os|
    decreases n
  {
    if n == 0 then es else Inserted(os, n - 1, InsertEntry(es, os[n - 1]))
  }

  ghost predicate Distinct(os: seq<MapEntry>) {
    forall i, j :: 0 <= i < j < |os| ==> os[i].key != os[j].key
  }

  lemma {:induction false} InsertedSorted(os: seq<MapEntry>, n: nat, es: seq<MapEntry>)
    requires n <= |os| && Distinct(os) && SortedEntries(es)
    requires forall i :: 0 <= i < n ==> NewKey(es, os[i].key)
    ensures SortedEntries(Inserted(os, n, es)) && multiset(Inserted(os, n, es)) == multiset(es) + multiset(os[..n])
    decreases n
  {
    hide KeyBefore, InsertEntry, SortedEntries;
    if n == 0 {
      assert os[..0] == [];
    } else {
      var e := os[n - 1];
      var now := InsertEntry(es, e);
      InsertEntrySorted(es, e);
      forall i | 0 <= i < n - 1 ensures NewKey(now, os[i].key) {
        forall j | 0 <= j < |now| ensures now[j].key != os[i].key {
          assert now[j] in multiset(now);
        }
      }
      InsertedSorted(os, n - 1, now);
      assert os[..n] == os[..n - 1] + [e];
    }
  }

  // The members ------------------------------------------------------------------------------

  ghost function MemberOf(ty: Ty, e: MapEntry): Member
    requires ty.MapT? && HasTy(ty.elem, e.value)
  {
    Member(KeyText(e.key), ToJson(ty.elem, e.value))
  }

  ghost predicate AllTyped(ty: Ty, os: seq<MapEntry>)
    requires ty.MapT?
  {
    forall i :: 0 <= i < |os| ==> HasTy(ty.elem, os[i].value) && HasKeyTy(ty.key, os[i].key)
  }

  ghost function Members(ty: Ty, os: seq<MapEntry>): seq<Member>
    requires ty.MapT? && AllTyped(ty, os)
  {
    seq(|os|, i requires 0 <= i < |os| => MemberOf(ty, os[i]))
  }

  /** Inserting a new key puts it somewhere between the others. */
  lemma {:induction false} InsertedBetween(ms: seq<Member>, key: string, value: Json) returns (p: nat)
    requires forall i :: 0 <= i < |ms| ==> ms[i].key != key
    ensures p <= |ms| && Insert(ms, key, value) == ms[..p] + [Member(key, value)] + ms[p..]
  {
    hide Less;
    if ms == [] || Less(key, ms[0].key) {
      p := 0;
    } else {
      var q := InsertedBetween(ms[1..], key, value);
      p := q + 1;
      assert ms[..p] == [ms[0]] + ms[1..][..q] && ms[p..] == ms[1..][q..];
    }
  }

  // Key texts --------------------------------------------------------------------------------

  /** The text of an integer parses back to it. */
  lemma ParseIntText(i: int, lo: int, hi: int)
    requires lo <= i <= hi
    ensures ParseInt(IntText(i), lo, hi) == Some(i)
  {
    hide Decimal, DecimalValue;
    var n := if i < 0 then -i else i;
    DecimalDigits(n);
    assert IsDigit(Decimal(n)[0]);
    if i < 0 {
      assert IntText(i)[1..] == Decimal(n);
    }
  }

  lemma KeyTextInjective(kt: KeyTy, a: KeyVal, b: KeyVal)
    requires HasKeyTy(kt, a) && HasKeyTy(kt, b) && KeyText(a) == KeyText(b)
    ensures a == b
  {
    hide ParseInt, IntText;
    if kt.IntKey? {
      ParseIntText(a.i, kt.lo, kt.hi);
      ParseIntText(b.i, kt.lo, kt.hi);
    }
  }

  /** An entry taken from a map, and where it was. */
  lemma EntryAt(es: seq<MapEntry>, e: MapEntry) returns (j: nat)
    requires e in multiset(es)
    ensures j < |es| && es[j] == e
  {
    assert e in es;
    j :| 0 <= j < |es| && es[j] == e;
  }

  /** The texts of the first entries differ from that of the next. */
  lemma NewText(ty: Ty, v: Val, n: nat, os: seq<MapEntry>, i: nat)
    requires HasTy(ty, v) && ty.MapT? && n < |v.entries| && multiset(os) == multiset(v.entries[..n]) && i < |os|
    ensures HasKeyTy(ty.key, os[i].key) && HasTy(ty.elem, os[i].value)
    ensures KeyText(os[i].key) != KeyText(v.entries[n].key)
  {
    hide KeyText, KeyBefore, HasKeyTy;
    assert os[i] in multiset(os);
    var j := EntryAt(v.entries[..n], os[i]);
    assert os[i] == v.entries[j];
    BeforeStrict(v.entries[j].key, v.entries[n].key);
    if KeyText(os[i].key) == KeyText(v.entries[n].key) {
      KeyTextInjective(ty.key, os[i].key, v.entries[n].key);
    }
  }

  /** The members of a map are its entries, in some order. */
  lemma {:induction false} MembersOrdered(ty: Ty, v: Val, n: nat) returns (os: seq<MapEntry>)
    requires HasTy(ty, v) && ty.MapT? && n <= |v.entries|
    ensures multiset(os) == multiset(v.entries[..n]) && AllTyped(ty, os) && MapMembers(ty, v, n) == Members(ty, os)
    decreases n
  {
    hide HasTy, Insert, KeyText, HasKeyTy, ToJson, Spliced, AllTyped;
    EntryTyped(ty, v, 0);
    if n == 0 {
      os := [];
      assert v.entries[..0] == [];
      NothingTyped(ty);
    } else {
      EntryTyped(ty, v, n - 1);
      var qs := MembersOrdered(ty, v, n - 1);
      var e, ms := v.entries[n - 1], MapMembers(ty, v, n - 1);
      forall i | 0 <= i < |ms| ensures ms[i].key != KeyText(e.key) {
        NewText(ty, v, n - 1, qs, i);
      }
      var p := InsertedBetween(ms, KeyText(e.key), ToJson(ty.elem, e.value));
      os := Spliced(qs, p, e);
      SplicedMembers(ty, qs, p, e);
      assert v.entries[..n] == v.entries[..n - 1] + [e];
    }
  }

  lemma NothingTyped(ty: Ty)
    requires ty.MapT?
    ensures AllTyped(ty, [])
  {
  }

  ghost function Spliced(qs: seq<MapEntry>, p: nat, e: MapEntry): seq<MapEntry>
    requires p <= |qs|
  {
    qs[..p] + [e] + qs[p..]
  }

  lemma SplicedMembers(ty: Ty, qs: seq<MapEntry>, p: nat, e: MapEntry)
    requires ty.MapT? && AllTyped(ty, qs) && HasTy(ty.elem, e.value) && HasKeyTy(ty.key, e.key) && p <= |qs|
    ensures AllTyped(ty, Spliced(qs, p, e)) && multiset(Spliced(qs, p, e)) == multiset(qs) + multiset{e}
    ensures Members(ty, Spliced(qs, p, e)) == Members(ty, qs)[..p] + [MemberOf(ty, e)] + Members(ty, qs)[p..]
  {
    hide HasTy, HasKeyTy, MemberOf;
    assert qs == qs[..p] + qs[p..];
  }

  lemma EntryTyped(ty: Ty, v: Val, i: nat)
    requires HasTy(ty, v) && ty.MapT?
    ensures v.VMap? && SortedEntries(v.entries)
    ensures i < |v.entries| ==> HasKeyTy(ty.key, v.entries[i].key) && HasTy(ty.elem, v.entries[i].value)
  {
  }

  /** Putting the members in again, the last first, gives the map back. */
  lemma MembersReinserted(ty: Ty, v: Val, os: seq<MapEntry>)
    requires HasTy(ty, v) && ty.MapT? && multiset(os) == multiset(v.entries)
    ensures Inserted(os, |os|, []) == v.entries
  {
    hide KeyBefore, SortedEntries, HasTy;
    EntryTyped(ty, v, 0);
    EntriesDistinct(v.entries, os);
    NothingSorted();
    InsertedSorted(os, |os|, []);
    assert os[..|os|] == os && multiset([]) + multiset(os) == multiset(os);
    SortedSame(Inserted(os, |os|, []), v.entries);
  }

  lemma NothingSorted()
    ensures SortedEntries([])
  {
  }

  lemma EntriesDistinct(es: seq<MapEntry>, os: seq<MapEntry>)
    requires SortedEntries(es) && multiset(os) == multiset(es)
    ensures Distinct(os)
  {
    hide KeyBefore;
    forall i, j | 0 <= i < j < |os| ensures os[i].key != os[j].key {
      assert os[i] in multiset(os) && os[j] in multiset(os);
      var a := EntryAt(es, os[i]);
      var b := EntryAt(es, os[j]);
      BeforeStrict(es[a].key, es[b].key);
      BeforeStrict(es[b].key, es[a].key);
      if a == b { SameTwice(es, os, i, j, a); }
    }
  }

  /** An entry that is there once is there once in any order. */
  lemma SameTwice(es: seq<MapEntry>, os: seq<MapEntry>, i: nat, j: nat, a: nat)
    requires SortedEntries(es) && multiset(os) == multiset(es) && i < j < |os| && a < |es|
    ensures !(os[i] == os[j] == es[a])
  {
    hide KeyBefore;
    if os[i] == os[j] == es[a] {
      var e := es[a];
      Twice(os, i, j, e);
      assert es == es[..a] + [e] + es[a + 1..];
      assert multiset(es)[e] >= 2;
      assert e in multiset(es[..a]) || e in multiset(es[a + 1..]);
      if e in multiset(es[..a]) {
        var k := EntryAt(es[..a], e);
        BeforeStrict(es[k].key, e.key);
      } else {
        var k := EntryAt(es[a + 1..], e);
        BeforeStrict(e.key, es[a + 1 + k].key);
      }
      assert false;
    }
  }

  lemma Twice(os: seq<MapEntry>, i: nat, j: nat, e: MapEntry)
    requires i < j < |os| && os[i] == os[j] == e
    ensures multiset(os)[e] >= 2
  {
    assert os == os[..j] + [os[j]] + os[j + 1..];
    assert os[..j] == os[..i] + [os[i]] + os[..j][i + 1..];
  }
}
