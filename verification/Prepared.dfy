// Documents prepared for insertion: "_id" once and in front.
module Prepared {
  import opened Bytes
  import opened Document
  import opened Bson

  // The entries that are not printed as "_id", in order.
  function Others(d: Doc): Doc {
    if d.Empty? then Empty
    else if KeyText(d.key) == ID_NAME then Others(d.rest)
    else Entry(d.key, d.value, Others(d.rest))
  }

  // No key that is written holds a dot.
  predicate DotFree(d: Doc) {
    d.Empty? || ((DOT !in KeyText(d.key) || d.value.Resource?) && DotFree(d.rest))
  }

  // The document as it is inserted.
  function Inserted(d: Doc, newId: ObjectId): Doc {
    Entry(ID, Lookup(WithId(d, newId), ID).value, Others(d))
  }

  lemma {:induction false} PreparedElements(d: Doc)
    ensures PrepElements(d, true) == if DotFree(d) then EncodeElements(Others(d)) else None
  {
    if d.Entry? {
      PreparedElements(d.rest);
      NameHasNoDot();
      hide EncodeElement, KeyText;
      if KeyText(d.key) == ID_NAME {
        JoinNothing(PrepElements(d.rest, true));
      }
    }
  }

  lemma NameHasNoDot()
    ensures DOT !in ID_NAME
  {
  }

  lemma JoinNothing(e: Option<seq<Byte>>)
    ensures Join(Some([]), e) == e
  {
    if e.Some? {
      assert [] + e.value == e.value;
    }
  }

  // Adding the generated "_id" changes nothing else.
  lemma {:induction false} OthersWithId(d: Doc, v: Value)
    ensures Others(Update(d, ID, v)) == Others(d) && (DotFree(Update(d, ID, v)) <==> DotFree(d))
  {
    NameIsPlain();
    if d.Entry? && d.key != ID {
      OthersWithId(d.rest, v);
    }
  }

  lemma NameIsPlain()
    ensures KeyText(ID) == ID_NAME && DOT !in KeyText(ID)
  {
  }

  // zval_to_bson while preparing is zval_to_bson of the document with "_id"
  // moved or added to the front, unless a key holds a dot.
  lemma PreparedIs(d: Doc, newId: ObjectId)
    requires d.Entry?
    ensures PrepDoc(d, newId) == if DotFree(d) then EncodeDoc(Inserted(d, newId)) else None
  {
    var d' := WithId(d, newId);
    PreparedElements(d');
    if Lookup(d, ID).None? {
      OthersWithId(d, Id(Some(newId)));
    }
    assert Others(d') == Others(d) && (DotFree(d') <==> DotFree(d));
    NameIsPlain();
    hide Others, DotFree, WithId, EncodeElement, KeyText, PrepElements;
    var id := Lookup(d', ID).value;
    assert EncodeElements(Inserted(d, newId)) == Join(EncodeElement(ID_NAME, id), EncodeElements(Others(d)));
  }

  // The "_id" that is inserted is the given one, and only where there is none the
  // new one.
  lemma IdIsKept(d: Doc, newId: ObjectId)
    ensures var id := StrKey(['_' as int, 'i' as int, 'd' as int]);
            && Inserted(d, newId).key == id
            && Lookup(Inserted(d, newId), id)
               == if Lookup(d, id).Some? then Lookup(d, id) else Some(Id(Some(newId)))
  {
  }

  // The key and the value of an entry.
  predicate HasEntry(d: Doc, k: Key, v: Value) {
    d.Entry? && ((d.key == k && d.value == v) || HasEntry(d.rest, k, v))
  }

  // No dot stands in the name of an entry that is written.
  lemma DotFreeIff(d: Doc)
    ensures DotFree(d) <==> forall k, v :: HasEntry(d, k, v) && !v.Resource? ==> '.' as int !in KeyText(k)
  {
    hide KeyText, DotFree, HasEntry;
    if DotFree(d) {
      forall k, v | HasEntry(d, k, v) && !v.Resource? ensures '.' as int !in KeyText(k) {
        EntryHasNoDot(d, k, v);
      }
    } else {
      var k, v := DottedEntry(d);
    }
  }

  lemma {:induction false} EntryHasNoDot(d: Doc, k: Key, v: Value)
    requires DotFree(d) && HasEntry(d, k, v) && !v.Resource?
    ensures '.' as int !in KeyText(k)
  {
    hide KeyText;
    if d.key != k || d.value != v {
      EntryHasNoDot(d.rest, k, v);
    }
  }

  lemma {:induction false} DottedEntry(d: Doc) returns (k: Key, v: Value)
    requires !DotFree(d)
    ensures HasEntry(d, k, v) && !v.Resource? && '.' as int in KeyText(k)
  {
    hide KeyText;
    if DotFree(d.rest) {
      k, v := d.key, d.value;
    } else {
      k, v := DottedEntry(d.rest);
    }
  }

  // The others keep their order.
  lemma {:induction false} OthersConcat(a: Doc, b: Doc)
    ensures Others(Concat(a, b)) == Concat(Others(a), Others(b))
  {
    hide KeyText;
    if a.Entry? {
      OthersConcat(a.rest, b);
    }
  }

  predicate NulFreeKeys(d: Doc) {
    d.Empty? || ((d.key.StrKey? ==> NulFree(d.key.text)) && NulFreeKeys(d.rest))
  }

  // In what is inserted "_id" is there once: none of the other keys is read
  // back as "_id".
  lemma {:induction false} IdOnce(d: Doc)
    ensures !HasKey(Others(d), ID)
  {
    if d.Entry? {
      NameIsPlain();
      IdOnce(d.rest);
    }
  }

  // The other keys all come along when no key has a NUL.
  lemma {:induction false} OthersHas(d: Doc, k: Key)
    requires NulFreeKeys(d) && (k.StrKey? ==> NulFree(k.text))
    ensures HasKey(Others(d), k) <==> HasKey(d, k) && k != ID
    ensures k != ID ==> Lookup(Others(d), k) == Lookup(d, k)
  {
    IndexIsNotId(k);
    if d.Entry? {
      IndexIsNotId(d.key);
      OthersHas(d.rest, k);
      hide KeyText;
    }
  }

  lemma IndexIsNotId(k: Key)
    requires k.StrKey? ==> NulFree(k.text)
    ensures KeyText(k) == ID_NAME <==> k == ID
  {
    if k.IntKey? {
      if k.index == INT64_MIN {
      } else {
        NumberStart(k.index);
      }
    }
  }

  lemma NumberStart(n: int)
    ensures DecimalText(n)[0] == '-' as int || '0' as int <= DecimalText(n)[0] <= '9' as int
  {
    hide Decimal.Digits;
  }
}
