/** Offset reads of a remote object through a read-ahead window (vfs/ranged.go). */
module ReadAhead {
  import opened Messages

  const READ_AHEAD: nat := 0x100000

  datatype ReadError = Negative | Eof | Fetch

  /** A remote object, read by ranges; a request may fail. */
  class Remote {
    const data: Bytes
    ghost var requests: nat

    constructor (bytes: Bytes)
      ensures data == bytes && requests == 0
    {
      data := bytes;
      requests := 0;
    }

    method Fetch(off: nat, n: nat) returns (r: Option<Bytes>)
      requires off + n <= |data|
      modifies this
      ensures requests == old(requests) + 1
      ensures r.Some? ==> r.value == data[off..off + n]
    {
      requests := requests + 1;
      if * {
        return None;
      }
      r := Some(data[off..off + n]);
    }
  }

  class RemoteFile {
    const remote: Remote
    var win: Bytes
    var winOff: nat

    /** The window is a slice of the object. */
    ghost predicate Valid()
      reads this
    {
      winOff + |win| <= |remote.data| && win == remote.data[winOff..winOff + |win|]
    }

    constructor (remote: Remote)
      ensures Valid() && this.remote == remote
    {
      this.remote := remote;
      win, winOff := [], 0;
    }

    /** Replaces the window with at least `want` bytes from off, or to the end of the object; a
        failed request leaves it empty. */
    method Fill(off: nat, want: nat) returns (ok: bool)
      requires Valid() && off < |remote.data|
      modifies this, remote
      ensures Valid() && remote.requests == old(remote.requests) + 1
      ensures ok ==> winOff == off && (|win| >= want || off + |win| == |remote.data|) && |win| > 0
      ensures !ok ==> win == []
    {
      var most := if want > READ_AHEAD then want else READ_AHEAD;
      var size := if most < |remote.data| - off then most else |remote.data| - off;
      win := [];
      var body := remote.Fetch(off, size);
      if body.None? {
        return false;
      }
      win, winOff := body.value, off;
      ok := true;
    }

    /** Copies the window from at into p from n on, as far as either goes. */
    method Copy(p: array<char>, n: nat, at: nat) returns (k: nat)
      requires Valid() && n <= p.Length && winOff <= at <= winOff + |win|
      modifies p
      ensures k == (if p.Length - n < winOff + |win| - at then p.Length - n else winOff + |win| - at)
      ensures at + k <= |remote.data|
      ensures forall i :: n <= i < n + k ==> p[i] == remote.data[at + i - n]
      ensures forall i :: 0 <= i < p.Length && !(n <= i < n + k) ==> p[i] == old(p[i])
    {
      var left := winOff + |win| - at;
      k := if p.Length - n < left then p.Length - n else left;
      for i := 0 to k
        invariant forall j :: n <= j < n + i ==> p[j] == remote.data[at + j - n]
        invariant forall j :: 0 <= j < p.Length && !(n <= j < n + i) ==> p[j] == old(p[j])
      {
        p[n + i] := win[at - winOff + i];
      }
    }

    /** Reads p.Length bytes at off: exactly the object's bytes there, the end of the object when p
        passes it, and at most one request. */
    method ReadAt(p: array<char>, off: int) returns (n: nat, err: Option<ReadError>)
      requires Valid()
      modifies p, this, remote
      ensures Valid() && remote.requests <= old(remote.requests) + 1
      ensures err == Some(Negative) <==> off < 0
      ensures off < 0 ==> n == 0 && remote.requests == old(remote.requests)
      ensures off >= 0 ==> n <= p.Length && (n > 0 ==> off + n <= |remote.data| && p[..n] == remote.data[off..off + n])
      ensures forall i :: n <= i < p.Length ==> p[i] == old(p[i])
      ensures err.None? ==> n == p.Length
      ensures err == Some(Eof) ==> n == (if off < |remote.data| then |remote.data| - off else 0) < p.Length
      ensures err == Some(Fetch) ==> n < p.Length && off + n < |remote.data| && remote.requests == old(remote.requests) + 1
      ensures off >= 0 && p.Length > 0 && off + p.Length > |remote.data| ==> err == Some(Eof) || err == Some(Fetch)
    {
      n := 0;
      if off < 0 {
        return 0, Some(Negative);
      }
      while n < p.Length
        invariant Valid() && n <= p.Length && (n > 0 ==> off + n <= |remote.data|)
        invariant forall i :: 0 <= i < n ==> p[i] == remote.data[off + i]
        invariant forall i :: n <= i < p.Length ==> p[i] == old(p[i])
        invariant remote.requests <= old(remote.requests) + 1
        invariant remote.requests == old(remote.requests) + 1 ==> n == p.Length || off + n >= |remote.data|
        invariant remote.requests >= old(remote.requests)
        decreases p.Length - n
      {
        var at := off + n;
        if at >= |remote.data| {
          return n, Some(Eof);
        }
        if at < winOff || at >= winOff + |win| {
          var ok := Fill(at, p.Length - n);
          if !ok {
            return n, Some(Fetch);
          }
        }
        var k := Copy(p, n, at);
        n := n + k;
      }
      err := None;
    }
  }
}
