/**
 * Keys of a Chrome IndexedDB in LevelDB (ee/indexeddb/keys.go). Records of one object store are
 * selected by testing whether their key starts with the store's prefix; that is exact because no
 * varint is a prefix of another.
 */
module IndexedDbKeys {
  import opened Bytes
  import opened Varint

  const ObjectStoreMetaData: byte := 0x32
  const DatabaseNameType: byte := 0xc9
  const ObjectStoreDataIndex: byte := 1
  const BlobEntryIndex: byte := 3

  function UvarintBytes(x: nat): Text {
    PutUvarint(x, [])
  }

  function ObjectStoreNameKey(db: nat, store: nat): Text {
    [0] + UvarintBytes(db) + [0, 0, ObjectStoreMetaData] + UvarintBytes(store) + [0]
  }

  function ObjectDataKeyPrefix(db: nat, store: nat): Text {
    [0] + UvarintBytes(db) + UvarintBytes(store) + [ObjectStoreDataIndex]
  }

  function BlobKeyPrefix(db: nat, store: nat): Text {
    [0] + UvarintBytes(db) + UvarintBytes(store) + [BlobEntryIndex]
  }

  /** The length of a string in UTF-16 code units, then the string. */
  function StringWithLength(utf16: Text): Text {
    PutUvarint(|utf16| / 2, utf16)
  }

  /** The key under which the id of a database is stored: four zeros, a type byte, the origin, the name. */
  function DatabaseIdKey(origin: Text, name: Text): Text {
    [0, 0, 0, 0, DatabaseNameType] + StringWithLength(origin) + StringWithLength(name)
  }

  /** Every key of one index of one store: the ids, the index, and the user key. */
  function IndexKey(db: nat, store: nat, index: byte, userKey: Text): Text {
    [0] + PutUvarint(db, PutUvarint(store, [index] + userKey))
  }

  lemma Regroup(a: Text, b: Text, c: Text, d: Text, e: Text)
    ensures a + b + c + d + e == a + (b + (c + (d + e)))
  {
  }

  lemma PrefixIsIndexKey(db: nat, store: nat, index: byte, userKey: Text)
    ensures [0] + UvarintBytes(db) + UvarintBytes(store) + [index] + userKey == IndexKey(db, store, index, userKey)
  {
    var tail := [index] + userKey;
    UvarintAppend(store, [], tail);
    assert [] + tail == tail;
    UvarintAppend(db, [], PutUvarint(store, tail));
    assert [] + PutUvarint(store, tail) == PutUvarint(store, tail);
    Regroup([0], UvarintBytes(db), UvarintBytes(store), [index], userKey);
  }

  lemma NameKeyShape(db: nat, store: nat)
    ensures ObjectStoreNameKey(db, store) == [0] + PutUvarint(db, [0, 0, ObjectStoreMetaData] + PutUvarint(store, [0]))
  {
    var tail := [0, 0, ObjectStoreMetaData] + PutUvarint(store, [0]);
    UvarintAppend(store, [], [0]);
    assert [] + [0] == [0];
    UvarintAppend(db, [], tail);
    assert [] + tail == tail;
    Regroup([0], UvarintBytes(db), [0, 0, ObjectStoreMetaData], UvarintBytes(store), [0]);
  }

  /** Two keys that agree are keys of the same index of the same store, for the same user key. */
  lemma IndexKeyInjective(db1: nat, store1: nat, index1: byte, user1: Text, db2: nat, store2: nat, index2: byte, user2: Text)
    requires IndexKey(db1, store1, index1, user1) == IndexKey(db2, store2, index2, user2)
    ensures db1 == db2 && store1 == store2 && index1 == index2 && user1 == user2
  {
    var k1, k2 := IndexKey(db1, store1, index1, user1), IndexKey(db2, store2, index2, user2);
    var t1, t2 := [index1] + user1, [index2] + user2;
    assert k1[1..] == PutUvarint(db1, PutUvarint(store1, t1)) && k2[1..] == PutUvarint(db2, PutUvarint(store2, t2));
    PrefixFree(db1, PutUvarint(store1, t1), db2, PutUvarint(store2, t2));
    PrefixFree(store1, t1, store2, t2);
    assert t1[0] == t2[0] && t1[1..] == t2[1..];
  }

  /** What is left of a key that starts with a prefix. */
  lemma PrefixRest(prefix: Text, key: Text) returns (rest: Text)
    requires prefix <= key
    ensures key == prefix + rest
  {
    rest := key[|prefix|..];
  }

  /** The prefix of a store selects its own records and no others. */
  lemma SelectsOwnRecords(db: nat, store: nat, db': nat, store': nat, userKey: Text)
    ensures ObjectDataKeyPrefix(db, store) <= ObjectDataKeyPrefix(db', store') + userKey
       <==> db == db' && store == store'
  {
    var key := ObjectDataKeyPrefix(db', store') + userKey;
    if ObjectDataKeyPrefix(db, store) <= key {
      var rest := PrefixRest(ObjectDataKeyPrefix(db, store), key);
      PrefixIsIndexKey(db, store, ObjectStoreDataIndex, rest);
      PrefixIsIndexKey(db', store', ObjectStoreDataIndex, userKey);
      IndexKeyInjective(db, store, ObjectStoreDataIndex, rest, db', store', ObjectStoreDataIndex, userKey);
    }
  }

  /** It selects no blob entry, of any store. */
  lemma SelectsNoBlobs(db: nat, store: nat, db': nat, store': nat, userKey: Text)
    ensures !(ObjectDataKeyPrefix(db, store) <= BlobKeyPrefix(db', store') + userKey)
  {
    var key := BlobKeyPrefix(db', store') + userKey;
    if ObjectDataKeyPrefix(db, store) <= key {
      var rest := PrefixRest(ObjectDataKeyPrefix(db, store), key);
      PrefixIsIndexKey(db, store, ObjectStoreDataIndex, rest);
      PrefixIsIndexKey(db', store', BlobEntryIndex, userKey);
      IndexKeyInjective(db, store, ObjectStoreDataIndex, rest, db', store', BlobEntryIndex, userKey);
    }
  }

  /** It selects no object store name. */
  lemma SelectsNoNames(db: nat, store: nat, db': nat, store': nat)
    ensures !(ObjectDataKeyPrefix(db, store) <= ObjectStoreNameKey(db', store'))
  {
    var key := ObjectStoreNameKey(db', store');
    if ObjectDataKeyPrefix(db, store) <= key {
      var rest := PrefixRest(ObjectDataKeyPrefix(db, store), key);
      PrefixIsIndexKey(db, store, ObjectStoreDataIndex, rest);
      NameKeyShape(db', store');
      var mine := PutUvarint(store, [ObjectStoreDataIndex] + rest);
      var theirs := [0, 0, ObjectStoreMetaData] + PutUvarint(store', [0]);
      assert key[1..] == PutUvarint(db, mine) && key[1..] == PutUvarint(db', theirs);
      PrefixFree(db, mine, db', theirs);
      assert theirs == PutUvarint(0, [0, ObjectStoreMetaData] + PutUvarint(store', [0]));
      var a, b := [ObjectStoreDataIndex] + rest, [0, ObjectStoreMetaData] + PutUvarint(store', [0]);
      assert a[0] == ObjectStoreDataIndex && b[0] == 0;
      PrefixFree(store, a, 0, b);
    }
  }

  /** Nor any database id. */
  lemma SelectsNoDatabaseIds(db: nat, store: nat, origin: Text, name: Text)
    ensures !(ObjectDataKeyPrefix(db, store) <= DatabaseIdKey(origin, name))
  {
    var key := DatabaseIdKey(origin, name);
    if ObjectDataKeyPrefix(db, store) <= key {
      var rest := PrefixRest(ObjectDataKeyPrefix(db, store), key);
      PrefixIsIndexKey(db, store, ObjectStoreDataIndex, rest);
      var tail := [0, DatabaseNameType] + StringWithLength(origin) + StringWithLength(name);
      assert key == [0, 0, 0] + tail && [0, 0, 0] + tail == [0] + ([0] + ([0] + tail));
      assert key == IndexKey(db, store, ObjectStoreDataIndex, rest);
      assert key[1..] == PutUvarint(db, PutUvarint(store, [ObjectStoreDataIndex] + rest));
      assert key[1..] == PutUvarint(0, PutUvarint(0, tail));
      PrefixFree(db, PutUvarint(store, [ObjectStoreDataIndex] + rest), 0, PutUvarint(0, tail));
      var a := [ObjectStoreDataIndex] + rest;
      assert a[0] == ObjectStoreDataIndex && tail[0] == 0;
      PrefixFree(store, a, 0, tail);
    }
  }

  /** Moving the user key of a record behind the blob prefix finds that record's own blob entry. */
  lemma BlobOfRecord(db: nat, store: nat, userKey: Text, db': nat, store': nat, userKey': Text)
    requires BlobKeyPrefix(db, store) + userKey == BlobKeyPrefix(db', store') + userKey'
    ensures db == db' && store == store' && userKey == userKey'
  {
    PrefixIsIndexKey(db, store, BlobEntryIndex, userKey);
    PrefixIsIndexKey(db', store', BlobEntryIndex, userKey');
    IndexKeyInjective(db, store, BlobEntryIndex, userKey, db', store', BlobEntryIndex, userKey');
  }
}
