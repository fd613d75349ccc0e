/** Reading a published file while its publisher still removes the staging link
    (src/artifacts/secure-io.ts). */
module PublicationReader {
  import opened Wrappers

  datatype ReadError = NotFound | HardLinkDenied | TooLarge

  /** What one read of the whole file answers. */
  function Expected(data: Bytes, maxBytes: nat): Result<Bytes, ReadError> {
    if |data| <= maxBytes then Ok(data) else Err(TooLarge)
  }

  /** A file whose final link is in place. Its staging link may go at any await, and does not come back. */
  class PublishedFile {
    const data: Bytes
    var staging: bool

    constructor (contents: Bytes)
      ensures data == contents && staging
    {
      data, staging := contents, true;
    }

    function Links(): nat
      reads this
    {
      if staging then 2 else 1
    }

    method Pass()
      modifies this
      ensures staging ==> old(staging)
    {
      if * { staging := false; }
    }

    /** What a call saw of the staging link, if it looked at any moment of a stretch of time. */
    method Glimpse(first: bool, last: bool) returns (seen: bool)
      requires last ==> first
      ensures last ==> seen
      ensures seen ==> first
    {
      seen := last || first;
      if first && !last { seen := *; }
    }

    /** readBoundedHandle: fill a buffer one byte longer than the limit, however short the reads are. */
    method ReadBoundedHandle(maxBytes: nat) returns (r: Result<Bytes, ReadError>)
      ensures r == Expected(data, maxBytes)
    {
      if |data| > maxBytes { return Err(TooLarge); }
      var contents := new Byte[maxBytes + 1];
      var offset: nat := 0;
      while offset < contents.Length
        invariant offset <= |data| && offset <= contents.Length
        invariant contents[..offset] == data[..offset]
        decreases contents.Length - offset
      {
        var rest := |data| - offset;
        if rest == 0 { break; }
        var bytesRead :| 1 <= bytesRead <= rest;
        forall i | offset <= i < offset + bytesRead { contents[i] := data[i]; }
        offset := offset + bytesRead;
      }
      if offset > maxBytes { return Err(TooLarge); }
      assert contents[..offset] == data;
      return Ok(contents[..offset]);
    }

    /** readBoundedRegularFile: exactly one link is allowed. */
    method ReadRegular(maxBytes: nat) returns (r: Result<Bytes, ReadError>)
      modifies this
      ensures staging ==> old(staging)
      ensures !old(staging) ==> r == Expected(data, maxBytes)
      ensures r == Expected(data, maxBytes) || r == Err(HardLinkDenied)
    {
      Pass();
      if Links() != 1 { return Err(HardLinkDenied); }
      r := ReadBoundedHandle(maxBytes);
    }

    /** readBoundedPublicationFile: both links are looked at together, three times each in any order. A
        staging link that goes meanwhile turns some of the looks into errors, and then the file is read
        as a regular one. The bytes always come back. */
    method ReadPublication(maxBytes: nat) returns (r: Result<Bytes, ReadError>)
      modifies this
      ensures staging ==> old(staging)
      ensures r == Expected(data, maxBytes)
    {
      Pass();
      if !staging {
        r := ReadRegular(maxBytes);
        return;
      }
      var first := staging;
      Pass();
      var last := staging;
      var finalLinked := Glimpse(first, last);
      var stagingLinked := Glimpse(first, last);
      var stagingNamed := Glimpse(first, last);
      if !finalLinked || !stagingLinked || !stagingNamed {
        Pass();
        if Links() != 1 { return Err(if stagingNamed then HardLinkDenied else NotFound); }
        r := ReadRegular(maxBytes);
        return;
      }
      r := ReadBoundedHandle(maxBytes);
    }

    /** readBoundedPublishedFile: look for a staging link first. */
    method ReadPublished(maxBytes: nat) returns (r: Result<Bytes, ReadError>)
      modifies this
      ensures r == Expected(data, maxBytes)
    {
      Pass();
      if staging {
        r := ReadPublication(maxBytes);
      } else {
        r := ReadRegular(maxBytes);
      }
    }
  }
}
