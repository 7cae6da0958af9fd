/** The certificate manager: a cache of parsed certificates and key fingerprints in front of a certificate store. */
module CertCache {
  import opened Wrappers
  import opened Sequences

  // ---------------------------------------------------------------------------------------------
  // Certificates, ids and what the cryptographic library does
  // ---------------------------------------------------------------------------------------------

  datatype Certificate = Certificate(hasPrivateKey: bool, content: string)

  datatype Mode = Private | Public | Any

  predicate CanBeListed(c: Certificate, mode: Mode) {
    match mode
    case Private => c.hasPrivateKey
    case Public => !c.hasPrivateKey
    case Any => true
  }

  predicate IsHexDigit(c: char) { '0' <= c <= '9' || 'a' <= c <= 'f' || 'A' <= c <= 'F' }

  /** Anything that decodes as hexadecimal counts as a fingerprint, the empty id too. */
  predicate IsSHA256(id: string) { |id| % 2 == 0 && forall i :: 0 <= i < |id| ==> IsHexDigit(id[i]) }

  datatype BlockType = PrivateKeyBlock | CertificateBlock | PublicKeyBlock | OtherBlock

  /** A PEM block: its bytes and its printed form. */
  datatype Block = Block(kind: BlockType, bytes: string, pem: string)

  /** parse: a certificate with its chain and key; fingerprint: of the first block; keyPair: the first certificate of
      a chain that fits a key; encrypt: the printed encrypted key; firstCertificate: of a chain. */
  datatype Library = Library(
    parse: string -> Option<Certificate>,
    fingerprint: string -> Option<string>,
    keyPair: (string, string) -> Option<string>,
    encrypt: string -> Option<string>,
    firstCertificate: string -> Option<string>,
    hexSHA256: string -> string) {

    /** There is nothing to parse in an empty text. */
    predicate Sensible() { parse("") == None && fingerprint("") == None }
  }

  datatype Cached = Cert(cert: Certificate) | Print(fingerprint: string)

  // ---------------------------------------------------------------------------------------------
  // Looking certificates up, without and with the cache
  // ---------------------------------------------------------------------------------------------

  /** Stored texts are read for hexadecimal ids, files for all others. */
  function Raw(storage: map<string, string>, files: map<string, string>, id: string): Option<string> {
    if IsSHA256(id) then if "raw-" + id in storage then Some(storage["raw-" + id]) else None
    else if id in files then Some(files[id]) else None
  }

  function Fetch(lib: Library, storage: map<string, string>, files: map<string, string>, id: string)
    : Option<Certificate>
  {
    var raw := Raw(storage, files, id);
    if raw.None? then None else lib.parse(raw.value)
  }

  function Look(lib: Library, cache: map<string, Cached>, storage: map<string, string>, files: map<string, string>,
                id: string): Option<Certificate>
  {
    if id in cache && cache[id].Cert? then Some(cache[id].cert) else Fetch(lib, storage, files, id)
  }

  /** A certificate that cannot be had leaves an empty slot; one of the wrong kind leaves none. */
  function Slot(found: Option<Certificate>, mode: Mode): seq<Option<Certificate>> {
    if found.Some? && !CanBeListed(found.value, mode) then [] else [found]
  }

  function Listed(lib: Library, cache: map<string, Cached>, storage: map<string, string>, files: map<string, string>,
                  ids: seq<string>, mode: Mode): seq<Option<Certificate>>
  {
    if ids == [] then []
    else
      var n := |ids| - 1;
      Listed(lib, cache, storage, files, ids[..n], mode) + Slot(Look(lib, cache, storage, files, ids[n]), mode)
  }

  /** Every cached hexadecimal id holds what its stored text parses to. */
  ghost predicate Coherent(lib: Library, cache: map<string, Cached>, storage: map<string, string>) {
    forall id :: id in cache && IsSHA256(id) ==>
      && cache[id].Cert? && "raw-" + id in storage
      && lib.parse(storage["raw-" + id]) == Some(cache[id].cert)
  }

  lemma {:induction false} CoherentList(lib: Library, cache: map<string, Cached>, storage: map<string, string>,
                                        files: map<string, string>, ids: seq<string>, mode: Mode)
    requires Coherent(lib, cache, storage) && forall i :: 0 <= i < |ids| ==> IsSHA256(ids[i])
    ensures Listed(lib, cache, storage, files, ids, mode) == Listed(lib, map[], storage, map[], ids, mode)
  {
    if ids != [] {
      CoherentList(lib, cache, storage, files, ids[..|ids| - 1], mode);
    }
  }

  /** Listing any kind gives one slot per id, empty exactly where the certificate cannot be had. */
  lemma {:induction false} AnyModeSlots(lib: Library, cache: map<string, Cached>, storage: map<string, string>,
                                        files: map<string, string>, ids: seq<string>)
    ensures |Listed(lib, cache, storage, files, ids, Any)| == |ids|
    ensures forall i :: 0 <= i < |ids| ==>
              Listed(lib, cache, storage, files, ids, Any)[i] == Look(lib, cache, storage, files, ids[i])
  {
    if ids != [] {
      AnyModeSlots(lib, cache, storage, files, ids[..|ids| - 1]);
    }
  }

  /** Ids are listed in order, and each contributes an empty slot if its certificate cannot be had; in private mode only
      a certificate with a private key is listed, in public mode only one without. */
  lemma OneListed(lib: Library, cache: map<string, Cached>, storage: map<string, string>, files: map<string, string>,
                  ids: seq<string>, id: string, mode: Mode)
    ensures Listed(lib, cache, storage, files, [], mode) == []
    ensures var found := Look(lib, cache, storage, files, id);
      Listed(lib, cache, storage, files, ids + [id], mode) == Listed(lib, cache, storage, files, ids, mode) +
        if || (mode == Private && found.Some? && !found.value.hasPrivateKey)
           || (mode == Public && found.Some? && found.value.hasPrivateKey)
        then [] else [found]
  {
    assert (ids + [id])[..|ids|] == ids;
  }

  /** Where a certificate comes from: the cache, or else the store for an id of hexadecimal digits in pairs, or else a
      file. */
  lemma LookExactly(lib: Library, cache: map<string, Cached>, storage: map<string, string>, files: map<string, string>,
                    id: string)
    requires id in cache ==> cache[id].Cert?
    ensures var found := Look(lib, cache, storage, files, id);
      if id in cache then found == Some(cache[id].cert)
      else if |id| % 2 == 0 && forall i :: 0 <= i < |id| ==> id[i] in "0123456789abcdefABCDEF"
      then found == if "raw-" + id in storage then lib.parse(storage["raw-" + id]) else None
      else found == if id in files then lib.parse(files[id]) else None
  {
    forall i | 0 <= i < |id| ensures IsHexDigit(id[i]) <==> id[i] in "0123456789abcdefABCDEF" {
      HexDigits(id[i]);
    }
  }

  lemma HexDigits(c: char)
    ensures IsHexDigit(c) <==> c in "0123456789abcdefABCDEF"
  {
    var all := "0123456789abcdefABCDEF";
    if '0' <= c <= '9' {
      assert all[c as int - '0' as int] == c;
    } else if 'a' <= c <= 'f' {
      assert all[c as int - 'a' as int + 10] == c;
    } else if 'A' <= c <= 'F' {
      assert all[c as int - 'A' as int + 16] == c;
    }
  }

  /** Both caches answer every look-up alike. */
  ghost predicate SameLooks(lib: Library, a: map<string, Cached>, b: map<string, Cached>, storage: map<string, string>,
                            files: map<string, string>)
  {
    forall id :: Look(lib, a, storage, files, id) == Look(lib, b, storage, files, id)
  }

  /** The certificates of a cache, when only fingerprints are added. */
  ghost predicate SameCerts(a: map<string, Cached>, b: map<string, Cached>) {
    && (forall key :: key in a ==> key in b && b[key] == a[key])
    && (forall key :: key in b && key !in a ==> b[key].Print?)
  }

  lemma LooksCompose(lib: Library, a: map<string, Cached>, b: map<string, Cached>, c: map<string, Cached>,
                     storage: map<string, string>, files: map<string, string>)
    requires SameLooks(lib, a, b, storage, files) && SameLooks(lib, b, c, storage, files)
    ensures SameLooks(lib, a, c, storage, files)
  {
    forall id ensures Look(lib, a, storage, files, id) == Look(lib, c, storage, files, id) {
      assert Look(lib, a, storage, files, id) == Look(lib, b, storage, files, id);
    }
  }

  // ---------------------------------------------------------------------------------------------
  // Public key fingerprints
  // ---------------------------------------------------------------------------------------------

  /** The fingerprints in a cache, by the name they are cached under. */
  function Prints(cache: map<string, Cached>): map<string, string> {
    map key | key in cache && cache[key].Print? :: cache[key].fingerprint
  }

  /** Listing one key with a memory of fingerprints of its own; the empty text stands for a key that cannot be had. */
  function PlainKey(lib: Library, memory: map<string, string>, storage: map<string, string>, files: map<string, string>,
                    id: string): (string, map<string, string>)
  {
    if "pub-" + id in memory then (memory["pub-" + id], memory)
    else
      var raw := Raw(storage, files, id);
      var found := if raw.Some? then lib.fingerprint(raw.value) else None;
      if found.Some? then (found.value, memory["pub-" + id := found.value]) else ("", memory)
  }

  function PlainKeys(lib: Library, memory: map<string, string>, storage: map<string, string>,
                     files: map<string, string>,
                     ids: seq<string>): (seq<string>, map<string, string>)
  {
    if ids == [] then ([], memory)
    else
      var (out, m) := PlainKeys(lib, memory, storage, files, ids[..|ids| - 1]);
      var (key, m') := PlainKey(lib, m, storage, files, ids[|ids| - 1]);
      (out + [key], m')
  }

  /** A remembered fingerprint is listed as it is. Otherwise the key's text is looked up; its fingerprint is listed and
      remembered, or an empty text stands for it. */
  lemma KeyExactly(lib: Library, memory: map<string, string>, storage: map<string, string>, files: map<string, string>,
                   id: string)
    ensures var (out, after) := PlainKey(lib, memory, storage, files, id);
      var text := if IsSHA256(id) then if "raw-" + id in storage then Some(storage["raw-" + id]) else None
                  else if id in files then Some(files[id]) else None;
      if "pub-" + id in memory then out == memory["pub-" + id] && after == memory
      else if text.Some? && lib.fingerprint(text.value).Some?
      then lib.fingerprint(text.value) == Some(out) && after == memory["pub-" + id := out]
      else out == "" && after == memory
  {
  }

  lemma PubNames(a: string, b: string)
    ensures "pub-" + a == "pub-" + b <==> a == b
  {
    assert ("pub-" + a)[4..] == a && ("pub-" + b)[4..] == b;
  }

  /** What a key is listed as, with a memory of fingerprints. */
  function KeyText(lib: Library, memory: map<string, string>, storage: map<string, string>, files: map<string, string>,
                   id: string): string
  {
    PlainKey(lib, memory, storage, files, id).0
  }

  /** The memory m has only been added to since, and what was added is what is listed anyway. */
  ghost predicate Remembers(lib: Library, memory: map<string, string>, m: map<string, string>,
                            storage: map<string, string>, files: map<string, string>)
  {
    forall id :: KeyText(lib, m, storage, files, id) == KeyText(lib, memory, storage, files, id)
  }

  lemma RemembersMore(lib: Library, memory: map<string, string>, m: map<string, string>, storage: map<string, string>,
                      files: map<string, string>, id: string)
    requires Remembers(lib, memory, m, storage, files)
    ensures Remembers(lib, memory, PlainKey(lib, m, storage, files, id).1, storage, files)
  {
    var after := PlainKey(lib, m, storage, files, id).1;
    forall other ensures KeyText(lib, after, storage, files, other) == KeyText(lib, memory, storage, files, other) {
      PubNames(id, other);
      assert KeyText(lib, m, storage, files, other) == KeyText(lib, memory, storage, files, other);
    }
  }

  /** Listing keys gives one text per id, each what that id alone is listed as: remembering others changes nothing. */
  lemma {:induction false} KeysExactly(lib: Library, memory: map<string, string>, storage: map<string, string>,
                                       files: map<string, string>, ids: seq<string>)
    ensures var (out, m) := PlainKeys(lib, memory, storage, files, ids);
      && |out| == |ids|
      && (forall i :: 0 <= i < |ids| ==> out[i] == KeyText(lib, memory, storage, files, ids[i]))
      && Remembers(lib, memory, m, storage, files)
  {
    if ids != [] {
      var n := |ids| - 1;
      KeysExactly(lib, memory, storage, files, ids[..n]);
      var (out, m) := PlainKeys(lib, memory, storage, files, ids[..n]);
      assert KeyText(lib, m, storage, files, ids[n]) == KeyText(lib, memory, storage, files, ids[n]);
      RemembersMore(lib, memory, m, storage, files, ids[n]);
    }
  }

  lemma PubNotHex(id: string)
    ensures !IsSHA256("pub-" + id)
  {
    assert ("pub-" + id)[0] == 'p';
  }

  /** Deleting forgets the certificate but not the fingerprint: the key goes on being listed just when its
      fingerprint was cached. */
  lemma DeleteLeavesFingerprint(lib: Library, memory: map<string, string>, storage: map<string, string>, id: string)
    requires IsSHA256(id) && ("pub-" + id in memory ==> memory["pub-" + id] != "")
    ensures PlainKey(lib, memory - {id}, storage - {"raw-" + id}, map[], id).0 != "" <==> "pub-" + id in memory
  {
    PubNotHex(id);
  }

  // ---------------------------------------------------------------------------------------------
  // Adding
  // ---------------------------------------------------------------------------------------------

  datatype Parts = Parts(certs: seq<string>, keyBytes: string, keyPEM: string, publicPEM: string, publicBytes: string)

  const NOTHING := Parts([], "", "", "", "")

  /** Sorting the blocks; two private keys are too many. */
  function Sorted(blocks: seq<Block>): Option<Parts> {
    if blocks == [] then Some(NOTHING)
    else
      var n, p := |blocks| - 1, Sorted(blocks[..|blocks| - 1]);
      if p.None? then None
      else match blocks[n].kind
        case PrivateKeyBlock =>
          if p.value.keyBytes != "" then None
          else Some(p.value.(keyBytes := blocks[n].bytes, keyPEM := blocks[n].pem))
        case CertificateBlock => Some(p.value.(certs := p.value.certs + [blocks[n].pem]))
        case PublicKeyBlock => Some(p.value.(publicPEM := blocks[n].pem, publicBytes := blocks[n].bytes))
        case OtherBlock => p
  }

  /** The printed certificate blocks, in order. */
  function Certificates(blocks: seq<Block>): seq<string> {
    if blocks == [] then []
    else
      var last := blocks[|blocks| - 1];
      Certificates(blocks[..|blocks| - 1]) + (if last.kind.CertificateBlock? then [last.pem] else [])
  }

  /** n is the place of the last block of a kind, or -1. */
  predicate LastOf(blocks: seq<Block>, kind: BlockType, n: int) {
    && -1 <= n < |blocks| && (n >= 0 ==> blocks[n].kind == kind)
    && forall i :: n < i < |blocks| ==> blocks[i].kind != kind
  }

  /** A private key follows one that is not empty. */
  ghost predicate TwoKeys(blocks: seq<Block>) {
    exists i, j :: 0 <= i < j < |blocks| && blocks[i].kind.PrivateKeyBlock? && blocks[i].bytes != ""
      && blocks[j].kind.PrivateKeyBlock?
  }

  /** The parts hold all certificates in order, and the last private and the last public key. */
  ghost predicate PartsOf(blocks: seq<Block>, p: Parts, key: int, public: int) {
    && p.certs == Certificates(blocks)
    && LastOf(blocks, PrivateKeyBlock, key) && LastOf(blocks, PublicKeyBlock, public)
    && (if key < 0 then p.keyBytes == "" && p.keyPEM == ""
        else p.keyBytes == blocks[key].bytes && p.keyPEM == blocks[key].pem)
    && (if public < 0 then p.publicBytes == "" && p.publicPEM == ""
        else p.publicBytes == blocks[public].bytes && p.publicPEM == blocks[public].pem)
  }

  /** Blocks are refused if and only if a private key follows one that is not empty; otherwise nothing is lost but
      keys that a later one replaces. */
  lemma {:induction false} SortedExactly(blocks: seq<Block>) returns (key: int, public: int)
    ensures Sorted(blocks).None? <==> TwoKeys(blocks)
    ensures Sorted(blocks).Some? ==> PartsOf(blocks, Sorted(blocks).value, key, public)
  {
    key, public := -1, -1;
    if blocks != [] {
      var n := |blocks| - 1;
      key, public := SortedExactly(blocks[..n]);
      TwoKeysMore(blocks, key);
      if blocks[n].kind.PrivateKeyBlock? {
        key := n;
      }
      if blocks[n].kind.PublicKeyBlock? {
        public := n;
      }
    }
  }

  lemma TwoKeysMore(blocks: seq<Block>, key: int)
    requires blocks != []
    ensures TwoKeys(blocks[..|blocks| - 1]) ==> TwoKeys(blocks)
    ensures LastOf(blocks[..|blocks| - 1], PrivateKeyBlock, key) ==>
      (TwoKeys(blocks) <==>
        TwoKeys(blocks[..|blocks| - 1]) ||
        (blocks[|blocks| - 1].kind.PrivateKeyBlock? && key >= 0 && blocks[key].bytes != ""))
  {
    var n := |blocks| - 1;
    var front := blocks[..n];
    if i, j :|
      && 0 <= i < j < |front|
      && front[i].kind.PrivateKeyBlock? && front[i].bytes != "" && front[j].kind.PrivateKeyBlock?
    {
      assert blocks[i] == front[i] && blocks[j] == front[j];
    }
    if i, j :| LastOf(front, PrivateKeyBlock, key) && 0 <= i < j < |blocks| && blocks[i].kind.PrivateKeyBlock?
               && blocks[i].bytes != "" && blocks[j].kind.PrivateKeyBlock? {
      assert front[i] == blocks[i];
      if j < n {
        assert front[j] == blocks[j];
      } else if i < key {
        assert front[key] == blocks[key];
      }
    }
  }

  /** The id and the text to store, if the parts make a certificate or a public key. */
  function Identified(lib: Library, orgID: string, p: Parts): Option<(string, string)> {
    var joined := if p.certs == [] then "" else Join(p.certs, '\n');
    var chain := if joined == "" then p.publicPEM else joined;
    if chain == "" || (joined != "" && p.publicPEM != "") then None
    else if p.keyPEM != "" then
      var first, key := lib.keyPair(chain, p.keyPEM), lib.encrypt(p.keyBytes);
      if first.None? || key.None? then None
      else Some((orgID + lib.hexSHA256(first.value), chain + "\n" + key.value))
    else if p.publicPEM != "" then Some((orgID + lib.hexSHA256(p.publicBytes), chain))
    else
      var first := lib.firstCertificate(chain);
      if first.None? then None else Some((orgID + lib.hexSHA256(first.value), chain))
  }

  /** What adding does to the store: nothing if the blocks are wrong or the id is taken. */
  function Added(lib: Library, storage: map<string, string>, orgID: string, blocks: seq<Block>):
    (Option<string>, map<string, string>)
  {
    var p := Sorted(blocks);
    var found := if p.Some? then Identified(lib, orgID, p.value) else None;
    if found.None? then (None, storage)
    else
      var key := "raw-" + found.value.0;
      if key in storage && storage[key] != "" then (None, storage)
      else (Some(found.value.0), storage[key := found.value.1])
  }

  /** The certificates one after the other, on lines of their own. */
  function ChainOf(certs: seq<string>): string { if certs == [] then "" else Join(certs, '\n') }

  /** What adding blocks does, given their parts. The chain is the certificates, or without any the public key; there
      must be one, and not both. With a private key, the key must fit the chain and is stored encrypted behind it, and
      the certificate it fits names the entry; without one the public key or the first certificate does. */
  predicate Stores(lib: Library, orgID: string, p: Parts, id: string, text: string) {
    var certs := ChainOf(p.certs);
    var chain := if certs != "" then certs else p.publicPEM;
    && (certs == "" || p.publicPEM == "") && chain != ""
    && if p.keyPEM != "" then
         && lib.keyPair(chain, p.keyPEM).Some? && lib.encrypt(p.keyBytes).Some?
         && id == orgID + lib.hexSHA256(lib.keyPair(chain, p.keyPEM).value)
         && text == chain + "\n" + lib.encrypt(p.keyBytes).value
       else if certs == "" then id == orgID + lib.hexSHA256(p.publicBytes) && text == p.publicPEM
       else
         && lib.firstCertificate(certs).Some?
         && id == orgID + lib.hexSHA256(lib.firstCertificate(certs).value) && text == certs
  }

  lemma IdentifiedExactly(lib: Library, orgID: string, p: Parts, id: string, text: string)
    ensures Identified(lib, orgID, p) == Some((id, text)) <==> Stores(lib, orgID, p, id, text)
  {
  }

  /** Adding stores one text under one new id, and only if the blocks hold at most one key, make a certificate or a
      public key, and the id is free; otherwise it stores nothing. */
  lemma AddsExactly(lib: Library, storage: map<string, string>, orgID: string, blocks: seq<Block>, id: string)
    ensures var (added, after) := Added(lib, storage, orgID, blocks);
      && (added == Some(id) ==>
            && !TwoKeys(blocks) && ("raw-" + id in storage ==> storage["raw-" + id] == "")
            && exists p, key, public, text ::
                 PartsOf(blocks, p, key, public) && Stores(lib, orgID, p, id, text)
                 && after == storage["raw-" + id := text])
      && (added == None ==> after == storage)
      && (forall p, key, public, text ::
            PartsOf(blocks, p, key, public) && !TwoKeys(blocks) && Stores(lib, orgID, p, id, text) ==>
              (added == Some(id) <==> "raw-" + id !in storage || storage["raw-" + id] == ""))
  {
    var key, public := SortedExactly(blocks);
    if Sorted(blocks).Some? {
      var p := Sorted(blocks).value;
      forall i, t ensures Identified(lib, orgID, p) == Some((i, t)) <==> Stores(lib, orgID, p, i, t) {
        IdentifiedExactly(lib, orgID, p, i, t);
      }
      forall q, k, b, text | PartsOf(blocks, q, k, b) && Stores(lib, orgID, q, id, text)
        ensures Added(lib, storage, orgID, blocks).0 == Some(id) <==>
          "raw-" + id !in storage || storage["raw-" + id] == ""
      {
        SameParts(blocks, p, key, public, q, k, b);
      }
    }
  }

  lemma SameParts(blocks: seq<Block>, p: Parts, key: int, public: int, q: Parts, k: int, b: int)
    requires PartsOf(blocks, p, key, public) && PartsOf(blocks, q, k, b)
    ensures p == q
  {
    SameLast(blocks, PrivateKeyBlock, key, k);
    SameLast(blocks, PublicKeyBlock, public, b);
  }

  lemma SameLast(blocks: seq<Block>, kind: BlockType, n: int, m: int)
    requires LastOf(blocks, kind, n) && LastOf(blocks, kind, m)
    ensures n == m
  {
  }

  /** Adding never replaces a text that parses to something. */
  lemma AddingKeeps(lib: Library, cache: map<string, Cached>, storage: map<string, string>, orgID: string,
                    blocks: seq<Block>)
    requires lib.Sensible() && Coherent(lib, cache, storage)
    ensures Coherent(lib, cache, Added(lib, storage, orgID, blocks).1)
  {}

  /** Different ids are stored under different keys. */
  lemma KeysDiffer(a: string, b: string)
    requires "raw-" + a == "raw-" + b
    ensures a == b
  {
    assert ("raw-" + a)[4..] == a && ("raw-" + b)[4..] == b;
  }

  lemma DeletingKeeps(lib: Library, cache: map<string, Cached>, storage: map<string, string>, id: string)
    requires Coherent(lib, cache, storage)
    ensures Coherent(lib, cache - {id}, storage - {"raw-" + id})
  {
    forall other | other in cache - {id} && IsSHA256(other) ensures "raw-" + other in storage - {"raw-" + id} {
      if "raw-" + other == "raw-" + id {
        KeysDiffer(other, id);
      }
    }
  }

  // ---------------------------------------------------------------------------------------------
  // The manager
  // ---------------------------------------------------------------------------------------------

  class CertificateManager {
    const lib: Library
    var storage: map<string, string>
    var cache: map<string, Cached>

    constructor (lib: Library, storage: map<string, string>)
      requires lib.Sensible()
      ensures this.lib == lib && this.storage == storage && cache == map[] && Valid()
    {
      this.lib, this.storage, cache := lib, storage, map[];
    }

    ghost predicate Valid()
      reads this
    {
      lib.Sensible() && Coherent(lib, cache, storage)
    }

    /** One id. An id under which a fingerprint is cached cannot be listed: the source would fail on it. */
    method ListOne(id: string, mode: Mode, files: map<string, string>) returns (slot: seq<Option<Certificate>>)
      requires Valid() && (id in cache ==> cache[id].Cert?)
      modifies this`cache
      ensures Valid() && SameLooks(lib, cache, old(cache), storage, files)
      ensures forall key :: key in cache && key !in old(cache) ==> cache[key].Cert? && key == id
      ensures forall key :: key in old(cache) ==> key in cache && cache[key] == old(cache)[key]
      ensures slot == Slot(Look(lib, old(cache), storage, files, id), mode)
    {
      if id in cache {
        return if CanBeListed(cache[id].cert, mode) then [Some(cache[id].cert)] else [];
      }
      var raw := Raw(storage, files, id);
      if raw.None? {
        return [None];
      }
      var cert := lib.parse(raw.value);
      if cert.None? {
        return [None];
      }
      cache := cache[id := Cert(cert.value)];
      return if CanBeListed(cert.value, mode) then [cert] else [];
    }

    method List(certIDs: seq<string>, mode: Mode, files: map<string, string>) returns (out: seq<Option<Certificate>>)
      requires Valid() && forall i :: 0 <= i < |certIDs| && certIDs[i] in cache ==> cache[certIDs[i]].Cert?
      modifies this`cache
      ensures Valid() && SameLooks(lib, cache, old(cache), storage, files)
      ensures forall key :: key in cache && key !in old(cache) ==> cache[key].Cert? && key in certIDs
      ensures forall key :: key in old(cache) ==> key in cache && cache[key] == old(cache)[key]
      ensures out == Listed(lib, old(cache), storage, files, certIDs, mode)
    {
      out := [];
      for n := 0 to |certIDs|
        invariant Valid() && SameLooks(lib, cache, old(cache), storage, files)
        invariant forall i :: 0 <= i < |certIDs| && certIDs[i] in cache ==> cache[certIDs[i]].Cert?
        invariant forall key :: key in cache && key !in old(cache) ==> cache[key].Cert? && key in certIDs
        invariant forall key :: key in old(cache) ==> key in cache && cache[key] == old(cache)[key]
        invariant out == Listed(lib, old(cache), storage, files, certIDs[..n], mode)
      {
        assert certIDs[..n + 1][..n] == certIDs[..n];
        ghost var before := cache;
        assert Look(lib, before, storage, files, certIDs[n]) == Look(lib, old(cache), storage, files, certIDs[n]);
        var slot := ListOne(certIDs[n], mode, files);
        out := out + slot;
        LooksCompose(lib, cache, before, old(cache), storage, files);
      }
      assert certIDs[..|certIDs|] == certIDs;
    }

    /** Fingerprints are cached beside the certificates, under names no hexadecimal id has. */
    method ListPublicKeys(keyIDs: seq<string>, files: map<string, string>) returns (out: seq<string>)
      requires Valid()
      requires forall i :: 0 <= i < |keyIDs| && "pub-" + keyIDs[i] in cache ==> cache["pub-" + keyIDs[i]].Print?
      modifies this`cache
      ensures Valid() && SameCerts(old(cache), cache)
      ensures (out, Prints(cache)) == PlainKeys(lib, old(Prints(cache)), storage, files, keyIDs)
    {
      out := [];
      for n := 0 to |keyIDs|
        invariant Valid() && SameCerts(old(cache), cache)
        invariant (out, Prints(cache)) == PlainKeys(lib, old(Prints(cache)), storage, files, keyIDs[..n])
      {
        assert keyIDs[..n + 1][..n] == keyIDs[..n];
        var key := ListPublicKey(keyIDs[n], files);
        out := out + [key];
      }
      assert keyIDs[..|keyIDs|] == keyIDs;
    }

    method ListPublicKey(id: string, files: map<string, string>) returns (fingerprint: string)
      requires Valid() && ("pub-" + id in cache ==> cache["pub-" + id].Print?)
      modifies this`cache
      ensures Valid() && SameCerts(old(cache), cache)
      ensures (fingerprint, Prints(cache)) == PlainKey(lib, old(Prints(cache)), storage, files, id)
    {
      if "pub-" + id in cache {
        return cache["pub-" + id].fingerprint;
      }
      var raw := Raw(storage, files, id);
      if raw.None? {
        return "";
      }
      var found := lib.fingerprint(raw.value);
      if found.None? {
        return "";
      }
      PubNotHex(id);
      cache := cache["pub-" + id := Print(found.value)];
      assert Prints(cache) == old(Prints(cache))["pub-" + id := found.value];
      return found.value;
    }

    method Add(blocks: seq<Block>, orgID: string) returns (certID: Option<string>)
      requires Valid()
      modifies this`storage
      ensures Valid()
      ensures (certID, storage) == Added(lib, old(storage), orgID, blocks)
    {
      var parts := SortBlocks(blocks);
      if parts.None? {
        return None;
      }
      var found := Identified(lib, orgID, parts.value);
      if found.None? {
        return None;
      }
      var key := "raw-" + found.value.0;
      if key in storage && storage[key] != "" {
        return None;
      }
      AddingKeeps(lib, cache, storage, orgID, blocks);
      storage := storage[key := found.value.1];
      return Some(found.value.0);
    }

    method Delete(certID: string)
      requires Valid()
      modifies this`storage, this`cache
      ensures Valid()
      ensures storage == old(storage) - {"raw-" + certID} && cache == old(cache) - {certID}
    {
      DeletingKeeps(lib, cache, storage, certID);
      storage := storage - {"raw-" + certID};
      cache := cache - {certID};
    }

    method FlushCache()
      requires Valid()
      modifies this`cache
      ensures Valid() && cache == map[]
    {
      cache := map[];
    }

    method Expire(key: string)
      requires Valid()
      modifies this`cache
      ensures Valid() && cache == old(cache) - {key}
    {
      cache := cache - {key};
    }
  }

  method SortBlocks(blocks: seq<Block>) returns (parts: Option<Parts>)
    ensures parts == Sorted(blocks)
  {
    var p := NOTHING;
    for n := 0 to |blocks|
      invariant Sorted(blocks[..n]) == Some(p)
    {
      assert blocks[..n + 1][..n] == blocks[..n];
      match blocks[n].kind
      case PrivateKeyBlock =>
        if p.keyBytes != "" {
          StaysWrong(blocks, n + 1);
          return None;
        }
        p := p.(keyBytes := blocks[n].bytes, keyPEM := blocks[n].pem);
      case CertificateBlock => p := p.(certs := p.certs + [blocks[n].pem]);
      case PublicKeyBlock => p := p.(publicPEM := blocks[n].pem, publicBytes := blocks[n].bytes);
      case OtherBlock =>
    }
    assert blocks[..|blocks|] == blocks;
    return Some(p);
  }

  lemma {:induction false} StaysWrong(blocks: seq<Block>, n: nat)
    requires n <= |blocks| && Sorted(blocks[..n]) == None
    ensures Sorted(blocks) == None
    decreases |blocks|
  {
    if n < |blocks| {
      var front := blocks[..|blocks| - 1];
      assert front[..n] == blocks[..n];
      StaysWrong(front, n);
    } else {
      assert blocks[..n] == blocks;
    }
  }

  // ---------------------------------------------------------------------------------------------
  // Whole runs
  // ---------------------------------------------------------------------------------------------

  datatype Op =
    | ListOp(ids: seq<string>, mode: Mode)
    | ListKeysOp(ids: seq<string>)
    | AddOp(blocks: seq<Block>, orgID: string)
    | DeleteOp(id: string)
    | FlushOp
    | ExpireOp(key: string)

  datatype Out = Certs(certs: seq<Option<Certificate>>) | Keys(prints: seq<string>) | NewID(id: Option<string>) | NoOut

  predicate OnHex(op: Op) {
    op.ListOp? || op.ListKeysOp? ==> forall i :: 0 <= i < |op.ids| ==> IsSHA256(op.ids[i])
  }

  /** A manager without a certificate cache: the store, and a memory of fingerprints. */
  datatype PlainState = PlainState(storage: map<string, string>, memory: map<string, string>)

  function Plain(lib: Library, s: PlainState, op: Op): (Out, PlainState) {
    match op
    case ListOp(ids, mode) => (Certs(Listed(lib, map[], s.storage, map[], ids, mode)), s)
    case ListKeysOp(ids) =>
      var (prints, memory) := PlainKeys(lib, s.memory, s.storage, map[], ids);
      (Keys(prints), s.(memory := memory))
    case AddOp(blocks, orgID) =>
      var (id, storage) := Added(lib, s.storage, orgID, blocks);
      (NewID(id), s.(storage := storage))
    case DeleteOp(id) => (NoOut, PlainState(s.storage - {"raw-" + id}, s.memory - {id}))
    case FlushOp => (NoOut, s.(memory := map[]))
    case ExpireOp(key) => (NoOut, s.(memory := s.memory - {key}))
  }

  function PlainRun(lib: Library, s: PlainState, ops: seq<Op>): (seq<Out>, PlainState) {
    if ops == [] then ([], s)
    else
      var (outs, t) := PlainRun(lib, s, ops[..|ops| - 1]);
      var (out, u) := Plain(lib, t, ops[|ops| - 1]);
      (outs + [out], u)
  }

  /** Certificates are cached under hexadecimal ids only, as long as only such ids are listed. */
  ghost predicate Tidy(cache: map<string, Cached>) {
    forall key :: key in cache && cache[key].Cert? ==> IsSHA256(key)
  }

  ghost function PlainOf(m: CertificateManager): PlainState
    reads m
  {
    PlainState(m.storage, Prints(m.cache))
  }

  lemma {:induction false} HexNeedsNoFiles(lib: Library, memory: map<string, string>, storage: map<string, string>,
                                           files: map<string, string>, ids: seq<string>)
    requires forall i :: 0 <= i < |ids| ==> IsSHA256(ids[i])
    ensures PlainKeys(lib, memory, storage, files, ids) == PlainKeys(lib, memory, storage, map[], ids)
  {
    if ids != [] {
      HexNeedsNoFiles(lib, memory, storage, files, ids[..|ids| - 1]);
    }
  }

  method PerformList(m: CertificateManager, ids: seq<string>, mode: Mode, files: map<string, string>) returns (out: Out)
    requires m.Valid() && Tidy(m.cache) && OnHex(ListOp(ids, mode))
    modifies m
    ensures m.Valid() && Tidy(m.cache) && (out, PlainOf(m)) == Plain(m.lib, old(PlainOf(m)), ListOp(ids, mode))
  {
    CoherentList(m.lib, m.cache, m.storage, files, ids, mode);
    var certs := m.List(ids, mode, files);
    assert Prints(m.cache) == old(Prints(m.cache));
    out := Certs(certs);
  }

  method PerformListKeys(m: CertificateManager, ids: seq<string>, files: map<string, string>) returns (out: Out)
    requires m.Valid() && Tidy(m.cache) && OnHex(ListKeysOp(ids))
    modifies m
    ensures m.Valid() && Tidy(m.cache) && (out, PlainOf(m)) == Plain(m.lib, old(PlainOf(m)), ListKeysOp(ids))
  {
    forall i | 0 <= i < |ids| ensures !IsSHA256("pub-" + ids[i]) {
      PubNotHex(ids[i]);
    }
    HexNeedsNoFiles(m.lib, Prints(m.cache), m.storage, files, ids);
    var prints := m.ListPublicKeys(ids, files);
    out := Keys(prints);
  }

  method PerformOne(m: CertificateManager, op: Op, files: map<string, string>) returns (out: Out)
    requires m.Valid() && Tidy(m.cache) && OnHex(op)
    modifies m
    ensures m.Valid() && Tidy(m.cache) && (out, PlainOf(m)) == Plain(m.lib, old(PlainOf(m)), op)
  {
    match op
    case ListOp(ids, mode) => out := PerformList(m, ids, mode, files);
    case ListKeysOp(ids) => out := PerformListKeys(m, ids, files);
    case AddOp(blocks, orgID) =>
      var id := m.Add(blocks, orgID);
      out := NewID(id);
    case DeleteOp(id) =>
      m.Delete(id);
      assert Prints(m.cache) == old(Prints(m.cache)) - {id};
      out := NoOut;
    case FlushOp =>
      m.FlushCache();
      assert Prints(m.cache) == map[];
      out := NoOut;
    case ExpireOp(key) =>
      m.Expire(key);
      assert Prints(m.cache) == old(Prints(m.cache)) - {key};
      out := NoOut;
  }

  /** Over every sequence of operations on hexadecimal ids, the cache shows only as a memory of fingerprints: outputs
      and store are those of a manager that reads and parses every certificate anew. */
  method Perform(m: CertificateManager, ops: seq<Op>, files: map<string, string>) returns (outs: seq<Out>)
    requires m.Valid() && Tidy(m.cache) && forall i :: 0 <= i < |ops| ==> OnHex(ops[i])
    modifies m
    ensures m.Valid() && Tidy(m.cache) && (outs, PlainOf(m)) == PlainRun(m.lib, old(PlainOf(m)), ops)
  {
    outs := [];
    for n := 0 to |ops|
      invariant m.Valid() && Tidy(m.cache) && (outs, PlainOf(m)) == PlainRun(m.lib, old(PlainOf(m)), ops[..n])
    {
      assert ops[..n + 1][..n] == ops[..n];
      var out := PerformOne(m, ops[n], files);
      outs := outs + [out];
    }
    assert ops[..|ops|] == ops;
  }
}
