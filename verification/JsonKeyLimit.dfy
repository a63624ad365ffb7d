/** The keys of a text come back off the stack exactly when its key paths take at most 65535 bytes. */
module JsonKeyLimit {
  import opened Common
  import opened JsonValue
  import opened JsonGrammar
  import opened JsonStack
  import opened JsonBuilder
  import opened JsonComplete
  import Utf8

  /** On a stack within the limit, a slice that decodes to the key pushed has its length. */
  lemma SliceExact(st: Stack, bytes: seq<Utf8.Byte>)
    requires |st.buffer| <= MAX_KEY_BYTES
    ensures var start := AsU16(|st.buffer|);
            var slice := Slice(PushBytes(st, bytes), start, AsU16(start + AsU16(|bytes|)));
            slice.Some? && |slice.value| == |bytes| ==> |st.buffer| + |bytes| <= MAX_KEY_BYTES
  {
  }

  lemma TopExact(st: Stack, key: string)
    requires |st.buffer| <= MAX_KEY_BYTES
    ensures TopKey(PushKey(st, key)) == Some(key) <==> |st.buffer| + |Utf8.Encode(key)| <= MAX_KEY_BYTES
  {
    hide Utf8.Encode, Utf8.Decode, Slice;
    var bytes := Utf8.Encode(key);
    if |st.buffer| + |bytes| <= MAX_KEY_BYTES {
      TopPushKey(st, key);
    }
    if TopKey(PushKey(st, key)) == Some(key) {
      var start := AsU16(|st.buffer|);
      var slice := Slice(PushBytes(st, bytes), start, AsU16(start + AsU16(|bytes|)));
      SliceExact(st, bytes);
      if slice.Some? { Utf8.EncodeDecode(slice.value); }
    }
  }

  lemma KeyExact(st: Stack, key: seq<StrItem>)
    requires WfItems(key) && |st.buffer| <= MAX_KEY_BYTES
    ensures var k := ItemsMeaning(key);
            KeyRead(key, PushKey(st, k)) == Some(key) <==> |st.buffer| + |Utf8.Encode(k)| <= MAX_KEY_BYTES
  {
    hide TopKey, PushKey, Utf8.Encode;
    TopExact(st, ItemsMeaning(key));
    var top := TopKey(PushKey(st, ItemsMeaning(key)));
    if top.Some? { SpellingMeans(top.value); }
  }

  /** A tree is read with its own keys if and only if its key paths fit in 16 bits. */
  lemma {:induction false} ReadExact(t: Tree, st: Stack)
    requires Wf(t) && |st.buffer| <= MAX_KEY_BYTES
    ensures Read(t, st) == Some(t) <==> KeysFit(t, |st.buffer|)
    decreases t
  {
    match t
    case ArrayTree(es) => ElemsExact(es, st, 0);
    case ObjectTree(es) => EntriesExact(es, st);
    case _ =>
  }

  lemma {:induction false} ElemsExact(es: Elems, st: Stack, i: nat)
    requires WfElems(es) && |st.buffer| <= MAX_KEY_BYTES
    ensures ReadElems(es, st, i) == Some(es) <==> ElemKeysFit(es, |st.buffer|)
    decreases es
  {
    hide Read, Left, KeysFit;
    var here := PushIndex(st, i);
    PopPushIndex(st, i);
    ReadExact(es.value, here);
    if KeysFit(es.value, |st.buffer|) {
      FitRead(es.value, here);
      if es.more.MoreElems? { ElemsExact(es.more.elems, st, AsU32(i + 1)); }
    }
  }

  lemma {:induction false} EntriesExact(es: Entries, st: Stack)
    requires WfEntries(es) && |st.buffer| <= MAX_KEY_BYTES
    ensures ReadEntries(es, st) == Some(es) <==> EntryKeysFit(es, |st.buffer|)
    decreases es
  {
    hide Read, Left, KeysFit, KeyRead, PushKey, Pop, Utf8.Encode, ItemsMeaning;
    var here := PushKey(st, ItemsMeaning(es.key));
    KeyExact(st, es.key);
    if KeyRead(es.key, here) == Some(es.key) {
      KeyPushed(st, es.key);
      ReadExact(es.value, here);
      if KeysFit(es.value, |here.buffer|) {
        FitRead(es.value, here);
        if es.more.MoreEntries? { EntriesExact(es.more.entries, st); }
      }
    }
  }

  // A key that is lost -----------------------------------------------------------------------

  /** An object of one entry, `null`. */
  ghost function OneEntry(key: seq<StrItem>): Text {
    Text("", ObjectTree(Entry("", key, "", "", NullTree, "", NoEntries)), "")
  }

  /** A key of exactly 65536 bytes is read as the empty key. */
  lemma KeyLost(key: seq<StrItem>)
    requires WfItems(key) && |Utf8.Encode(ItemsMeaning(key))| == 0x1_0000
    ensures WfText(OneEntry(key))
    ensures UnparseText(OneEntry(key)) == "{" + (UnparseString(key) + ":null}")
    ensures FromStr(UnparseText(OneEntry(key))) == Done(Object([Member("", Null)]))
  {
    hide FromStr, Utf8.Encode, UnparseString;
    var t := OneEntry(key);
    EntryText(key, t.value.entries);
    OneEntryWf(key);
    TextRead(t);
    LostTop(ItemsMeaning(key));
    LostEntry(key, t.value.entries);
  }

  lemma OneEntryWf(key: seq<StrItem>)
    requires WfItems(key)
    ensures WfText(OneEntry(key))
  {
    assert WfEntries(OneEntry(key).value.entries);
  }

  lemma EntryText(key: seq<StrItem>, es: Entries)
    requires es == Entry("", key, "", "", NullTree, "", NoEntries)
    ensures UnparseText(OneEntry(key)) == "{" + (UnparseString(key) + ":null}")
  {
    hide UnparseString;
    assert "" + (":" + ("" + ("null" + ("" + "}")))) == ":null}";
    assert UnparseEntries(es) == UnparseString(key) + ":null}";
  }

  lemma LostTop(key: string)
    requires |Utf8.Encode(key)| == 0x1_0000
    ensures TopKey(PushKey(EMPTY, key)) == Some("")
  {
    hide Utf8.Encode;
    assert Slice(PushKey(EMPTY, key), 0, 0) == Some([]);
  }

  lemma LostEntry(key: seq<StrItem>, es: Entries)
    requires WfItems(key) && es == Entry("", key, "", "", NullTree, "", NoEntries)
    requires TopKey(PushKey(EMPTY, ItemsMeaning(key))) == Some("") && Wf(ObjectTree(es))
    ensures Read(ObjectTree(es), EMPTY).Some?
    ensures Meaning(Read(ObjectTree(es), EMPTY).value) == Object([Member("", Null)])
  {
    hide TopKey, PushKey, ItemsMeaning;
    var k := KeyRead(key, PushKey(EMPTY, ItemsMeaning(key)));
    assert k.Some? && ItemsMeaning(k.value) == "";
    var read := ReadEntries(es, EMPTY);
    assert Read(NullTree, PushKey(EMPTY, ItemsMeaning(key))) == Some(NullTree);
    assert read == Some(es.(key := k.value, value := NullTree));
    assert EntriesMeaning(read.value, []) == Insert([], "", Null);
  }

  /** There is such a key. */
  ghost function LongKey(n: nat): seq<StrItem> {
    seq(n, _ => Plain('k'))
  }

  lemma {:induction false} LongKeyLength(n: nat)
    ensures WfItems(LongKey(n)) && |Utf8.Encode(ItemsMeaning(LongKey(n)))| == n
    decreases n
  {
    if n > 0 {
      LongKeyLength(n - 1);
      assert LongKey(n)[1..] == LongKey(n - 1);
      var m := ItemsMeaning(LongKey(n));
      assert m[0] == 'k' && m[1..] == ItemsMeaning(LongKey(n - 1));
    }
  }

  /** Past the limit, another key than the one written can come back. */
  lemma KeysCanChange()
    ensures exists t: Text, v: Json :: WfText(t) && FromStr(UnparseText(t)) == Done(v) && v != Meaning(t.value)
  {
    hide FromStr, UnparseText, Utf8.Encode, ItemsMeaning, LongKey;
    var key := LongKey(0x1_0000);
    LongKeyLength(0x1_0000);
    KeyLost(key);
    var t := OneEntry(key);
    OneEntryMeaning(key, t.value.entries);
    EncodeEmpty();
  }

  lemma OneEntryMeaning(key: seq<StrItem>, es: Entries)
    requires WfItems(key) && es == Entry("", key, "", "", NullTree, "", NoEntries)
    ensures Meaning(ObjectTree(es)) == Object([Member(ItemsMeaning(key), Null)])
  {
    assert EntriesMeaning(es, []) == Insert([], ItemsMeaning(key), Null);
  }

  lemma EncodeEmpty()
    ensures Utf8.Encode("") == []
  {
  }
}
