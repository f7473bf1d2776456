/** The byte stream behind every connection: a buffer that is read from the front by moving a position. */
module DataStream {
  import opened Bytes

  class DataStream {
    var vch: seq<byte>
    var nReadPos: nat

    predicate Valid()
      reads this
    {
      nReadPos <= |vch|
    }

    /** The bytes still to be read. */
    function Contents(): (s: seq<byte>)
      requires Valid()
      reads this
    {
      vch[nReadPos..]
    }

    constructor ()
      ensures Valid() && Contents() == []
    {
      vch, nReadPos := [], 0;
    }

    method Size() returns (n: nat)
      requires Valid()
      ensures n == |Contents()|
    {
      n := |vch| - nReadPos;
    }

    method Empty() returns (b: bool)
      requires Valid()
      ensures b == (Contents() == [])
    {
      b := |vch| == nReadPos;
    }

    /** Makes the contents longer, with zeros, or shorter. */
    method Resize(n: nat)
      requires Valid()
      modifies this
      ensures Valid()
      ensures Contents() ==
        if n <= old(|Contents()|) then old(Contents())[..n] else old(Contents()) + seq(n - old(|Contents()|), _ => 0)
    {
      var size := n + nReadPos;
      vch := if size <= |vch| then vch[..size] else vch + seq(size - |vch|, _ => 0);
    }

    /** Inserts bytes before the i-th. At the front they go where read bytes were, if there is room. */
    method Insert(i: nat, data: seq<byte>)
      requires Valid() && i <= |Contents()|
      modifies this
      ensures Valid() && Contents() == old(Contents())[..i] + data + old(Contents())[i..]
    {
      if i == 0 && |data| <= nReadPos {
        nReadPos := nReadPos - |data|;
        vch := vch[..nReadPos] + data + vch[nReadPos + |data|..];
      } else {
        vch := vch[..nReadPos + i] + data + vch[nReadPos + i..];
      }
    }

    /** Takes out the bytes from the i-th to before the j-th. */
    method Erase(i: nat, j: nat)
      requires Valid() && i <= j <= |Contents()|
      modifies this
      ensures Valid() && Contents() == old(Contents())[..i] + old(Contents())[j..]
    {
      if i == 0 {
        if nReadPos + j == |vch| {
          vch, nReadPos := [], 0;
        } else {
          nReadPos := nReadPos + j;
        }
      } else {
        vch := vch[..nReadPos + i] + vch[nReadPos + j..];
      }
    }

    /** Forgets the bytes already read. */
    method Compact()
      requires Valid()
      modifies this
      ensures Valid() && nReadPos == 0 && Contents() == old(Contents())
    {
      vch := vch[nReadPos..];
      nReadPos := 0;
    }

    /** Steps back over bytes read since the last compaction. */
    method Rewind(n: nat) returns (ok: bool)
      requires Valid()
      modifies this
      ensures Valid() && ok == (n <= old(nReadPos))
      ensures Contents() == if ok then old(vch)[old(nReadPos) - n..old(nReadPos)] + old(Contents()) else old(Contents())
    {
      if n > nReadPos { return false; }
      nReadPos := nReadPos - n;
      ok := true;
    }

    /** Reads bytes from the front; at the end of the data nothing is read and the read fails. */
    method Read(nSize: nat) returns (ok: bool, data: seq<byte>)
      requires Valid()
      modifies this
      ensures Valid() && ok == (nSize <= old(|Contents()|))
      ensures ok ==> data == old(Contents())[..nSize] && Contents() == old(Contents())[nSize..]
      ensures !ok ==> Contents() == old(Contents())
    {
      data := [];
      var nReadPosNext := nReadPos + nSize;
      if nReadPosNext >= |vch| {
        if nReadPosNext > |vch| { return false, data; }
        data := vch[nReadPos..];
        nReadPos := 0;
        vch := [];
        return true, data;
      }
      data := vch[nReadPos..nReadPosNext];
      nReadPos := nReadPosNext;
      ok := true;
    }

    /** Skips bytes at the front. */
    method Ignore(nSize: nat) returns (ok: bool)
      requires Valid()
      modifies this
      ensures Valid() && ok == (nSize <= old(|Contents()|))
      ensures Contents() == if ok then old(Contents())[nSize..] else old(Contents())
    {
      var nReadPosNext := nReadPos + nSize;
      if nReadPosNext >= |vch| {
        if nReadPosNext > |vch| { return false; }
        nReadPos := 0;
        vch := [];
        return true;
      }
      nReadPos := nReadPosNext;
      ok := true;
    }

    method Write(data: seq<byte>)
      requires Valid()
      modifies this
      ensures Valid() && Contents() == old(Contents()) + data
    {
      vch := vch + data;
    }

    /** Overwrites bytes in place. */
    method Patch(i: nat, data: seq<byte>)
      requires Valid() && i + |data| <= |Contents()|
      modifies this
      ensures Valid() && Contents() == old(Contents())[..i] + data + old(Contents())[i + |data|..]
    {
      vch := vch[..nReadPos + i] + data + vch[nReadPos + i + |data|..];
    }
  }
}
