/** The stored form of API definitions: all maps with free keys are stored under encoded ones. */
module ApiDefinitionCodec {
  import opened KeyTables

  class APIDefinition {
    var versions: Table
    var upstreamCertificates: Table
    var pinnedPublicKeys: Table

    method EncodeForDB()
      modifies this
      ensures IsEncoding(old(versions), versions)
      ensures IsEncoding(old(upstreamCertificates), upstreamCertificates)
      ensures IsEncoding(old(pinnedPublicKeys), pinnedPublicKeys)
    {
      versions := EncodeTable(versions);
      upstreamCertificates := EncodeTable(upstreamCertificates);
      pinnedPublicKeys := EncodeTable(pinnedPublicKeys);
    }

    method DecodeFromDB()
      modifies this
      ensures versions in Decodings(old(versions))
      ensures upstreamCertificates in Decodings(old(upstreamCertificates))
      ensures pinnedPublicKeys in Decodings(old(pinnedPublicKeys))
    {
      versions := DecodeTable(versions);
      upstreamCertificates := DecodeTable(upstreamCertificates);
      pinnedPublicKeys := DecodeTable(pinnedPublicKeys);
    }
  }
}
