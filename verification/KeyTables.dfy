/** The key encoding of API definitions in the database: versions, upstream certificates and pinned keys
    are maps whose keys are stored in base64, and read back with a fallback for keys stored before that. */
module KeyTables {
  import opened Wrappers
  import opened Base64

  datatype VersionInfo = VersionInfo(name: Bytes, expires: Bytes, useExtendedPaths: bool)

  /** How a value is stored under a new key: version records carry their key as their name. */
  datatype Labelled = Version(v: VersionInfo) | Plain(text: Bytes) {
    function Under(key: Bytes): Labelled {
      match this
      case Version(v) => Version(v.(name := key))
      case Plain(_) => this
    }
  }

  type Table = map<Bytes, Labelled>

  ghost predicate EncodedFrom(m: Table, j: Bytes) {
    exists k :: k in m && j == Encode(k)
  }

  /** e holds every entry of m under its encoded key, and nothing else. */
  ghost predicate IsEncoding(m: Table, e: Table) {
    && (forall k :: k in m ==> Encode(k) in e && e[Encode(k)] == m[k].Under(Encode(k)))
    && (forall j {:trigger EncodedFrom(m, j)} :: j in e ==> EncodedFrom(m, j))
  }

  /** The key and value that an entry is read back as: undecodable keys are left as they are. */
  function DecodedKey(k: Bytes): Bytes {
    if Decode(k).Some? then Decode(k).value else k
  }

  function DecodedValue(k: Bytes, v: Labelled): Labelled {
    if Decode(k).Some? then v.Under(Decode(k).value) else v
  }

  ghost predicate DecodedFrom(e: Table, j: Bytes, v: Labelled) {
    exists k {:trigger k in e} :: k in e && j == DecodedKey(k) && v == DecodedValue(k, e[k])
  }

  /** d holds the entries of e under their decoded keys; when two keys meet, one of the entries is kept. */
  ghost predicate IsDecoding(e: Table, d: Table) {
    && (forall k {:trigger k in e} :: k in e ==> DecodedKey(k) in d)
    && (forall j {:trigger DecodedFrom(e, j, d[j])} :: j in d ==> DecodedFrom(e, j, d[j]))
  }

  /** The tables that e may be read back as. */
  ghost function Decodings(e: Table): iset<Table> {
    iset d: Table | IsDecoding(e, d)
  }

  method EncodeTable(m: Table) returns (e: Table)
    ensures IsEncoding(m, e)
  {
    e := map[];
    var todo := m.Keys;
    while todo != {}
      invariant todo <= m.Keys
      invariant forall k :: k in m && k !in todo ==> Encode(k) in e && e[Encode(k)] == m[k].Under(Encode(k))
      invariant forall j :: j in e ==> exists k :: k in m && k !in todo && j == Encode(k)
    {
      var k :| k in todo;
      var newK := Encode(k);
      forall other | other in m && other !in todo
        ensures Encode(other) != newK
      {
        if Encode(other) == newK {
          Injective(other, k);
        }
      }
      e := e[newK := m[k].Under(newK)];
      todo := todo - {k};
    }
  }

  method DecodeTable(e: Table) returns (d: Table)
    ensures d in Decodings(e)
  {
    d := map[];
    var todo := e.Keys;
    while todo != {}
      invariant todo <= e.Keys
      invariant forall k :: k in e && k !in todo ==> DecodedKey(k) in d
      invariant forall j :: j in d ==> exists k :: k in e && j == DecodedKey(k) && d[j] == DecodedValue(k, e[k])
    {
      var k :| k in todo;
      var newK := Decode(k);
      if newK.None? {
        d := d[k := e[k]];
      } else {
        d := d[newK.value := e[k].Under(newK.value)];
      }
      todo := todo - {k};
    }
  }

  lemma KeyRestored(k: Bytes, v: Labelled)
    ensures DecodedKey(Encode(k)) == k && DecodedValue(Encode(k), v.Under(Encode(k))) == v.Under(k)
  {
    RoundTrip(k);
  }

  lemma EntryRestored(m: Table, e: Table, d: Table, j: Bytes)
    requires IsEncoding(m, e) && IsDecoding(e, d) && j in d
    ensures j in m && d[j] == m[j].Under(j)
  {
    assert DecodedFrom(e, j, d[j]);
    var c :| c in e && j == DecodedKey(c) && d[j] == DecodedValue(c, e[c]);
    assert EncodedFrom(m, c);
    var k :| k in m && c == Encode(k);
    KeyRestored(k, m[k]);
  }

  lemma EntryKept(m: Table, e: Table, d: Table, k: Bytes)
    requires IsEncoding(m, e) && IsDecoding(e, d) && k in m
    ensures k in d
  {
    KeyRestored(k, m[k]);
    assert DecodedKey(Encode(k)) in d;
  }

  /** A version record is the same but for its name, which is the key; any other value is the same. */
  predicate Renamed(v: Labelled, key: Bytes, w: Labelled) {
    match v
    case Version(i) => w == Version(VersionInfo(key, i.expires, i.useExtendedPaths))
    case Plain(text) => w == Plain(text)
  }

  lemma Unders()
    ensures forall v: Labelled, key: Bytes {:trigger v.Under(key)} :: Renamed(v, key, v.Under(key))
  {
  }

  /** What is stored: every entry under its encoded key, a version named after that, and nothing else. */
  lemma StoredAs(m: Table, e: Table)
    requires IsEncoding(m, e)
    ensures forall k :: k in m ==> Encode(k) in e && Renamed(m[k], Encode(k), e[Encode(k)])
    ensures e.Keys == Image(Encode, m.Keys) && |e| == |m|
  {
    Unders();
    forall j | j in e ensures j in Image(Encode, m.Keys) {
      assert EncodedFrom(m, j);
    }
    forall k, l | k in m.Keys && l in m.Keys && k != l ensures Encode(k) != Encode(l) {
      if Encode(k) == Encode(l) {
        Injective(k, l);
      }
    }
    assert e.Keys == Image(Encode, m.Keys);
    ImageSize(Encode, m.Keys);
  }

  /** Storing and reloading gives every map back, no key collapsed, each version named after its key. */
  lemma ReloadRestores(m: Table, e: Table, d: Table)
    requires IsEncoding(m, e) && d in Decodings(e)
    ensures d.Keys == m.Keys
    ensures forall k :: k in m ==> Renamed(m[k], k, d[k])
  {
    Unders();
    forall k | k in m
      ensures k in d && d[k] == m[k].Under(k) && Renamed(m[k], k, d[k])
    {
      EntryKept(m, e, d, k);
      EntryRestored(m, e, d, k);
    }
    forall j | j in d
      ensures j in m
    {
      EntryRestored(m, e, d, j);
    }
  }

  /** A plain map comes back unchanged. */
  lemma PlainMapsRestored(m: Table, e: Table, d: Table)
    requires IsEncoding(m, e) && d in Decodings(e)
    requires forall k :: k in m ==> m[k].Plain?
    ensures d == m
  {
    ReloadRestores(m, e, d);
  }

  /** The fallback keeps a key that was never encoded exactly when it is not base64 by accident. */
  lemma LegacyKeyKept(k: Bytes)
    ensures DecodedKey(k) == k <==> k == [] || Decode(k).None?
  {
    if Decode(k).Some? {
      SkippingShortens(k);
      DecodingShortens(WithoutLineBreaks(k));
    }
  }

  function Image(f: Bytes -> Bytes, keys: set<Bytes>): set<Bytes> {
    set k | k in keys :: f(k)
  }

  ghost predicate Apart(f: Bytes -> Bytes, keys: set<Bytes>) {
    forall k, l :: k in keys && l in keys && k != l ==> f(k) != f(l)
  }

  lemma ImageOneMore(f: Bytes -> Bytes, rest: set<Bytes>, k: Bytes)
    requires k !in rest
    ensures Image(f, rest + {k}) == Image(f, rest) + {f(k)}
    ensures Apart(f, rest + {k}) <==> Apart(f, rest) && f(k) !in Image(f, rest)
  {
    if l :| l in rest && f(l) == f(k) {
      assert l in rest + {k} && k in rest + {k};
    }
  }

  lemma {:induction false} ImageSize(f: Bytes -> Bytes, keys: set<Bytes>)
    ensures |Image(f, keys)| <= |keys|
    ensures |Image(f, keys)| == |keys| <==> Apart(f, keys)
    decreases |keys|
  {
    if keys != {} {
      var k :| k in keys;
      var rest := keys - {k};
      ImageSize(f, rest);
      ImageOneMore(f, rest, k);
      assert keys == rest + {k};
      if f(k) in Image(f, rest) {
        assert Image(f, rest) + {f(k)} == Image(f, rest);
      }
    }
  }

  /** What is read back: exactly the decoded keys, so entries are lost if and only if two keys decode alike. */
  lemma LossExactly(e: Table, d: Table)
    requires d in Decodings(e)
    ensures d.Keys == Image(DecodedKey, e.Keys)
    ensures |d| <= |e| && (|d| == |e| <==> Apart(DecodedKey, e.Keys))
  {
    forall j | j in d ensures j in Image(DecodedKey, e.Keys) {
      assert DecodedFrom(e, j, d[j]);
    }
    assert d.Keys == Image(DecodedKey, e.Keys);
    ImageSize(DecodedKey, e.Keys);
  }

  /** Every key that does not decode meets its own encoding. */
  lemma LegacyMeetsEncoded(k: Bytes)
    requires Decode(k).None?
    ensures k != Encode(k) && DecodedKey(k) == DecodedKey(Encode(k))
  {
    RoundTrip(k);
  }

  /** Where no two keys decode alike, every entry comes back under its decoded key. */
  lemma DecodingLossless(e: Table, d: Table)
    requires d in Decodings(e) && Apart(DecodedKey, e.Keys)
    ensures forall k {:trigger k in e} :: k in e ==> DecodedKey(k) in d && d[DecodedKey(k)] == DecodedValue(k, e[k])
  {
    forall k | k in e
      ensures DecodedKey(k) in d && d[DecodedKey(k)] == DecodedValue(k, e[k])
    {
      assert DecodedFrom(e, DecodedKey(k), d[DecodedKey(k)]);
      var c :| c in e && DecodedKey(k) == DecodedKey(c) && d[DecodedKey(k)] == DecodedValue(c, e[c]);
      assert c == k;
    }
  }
}
