/** Storing and fetching record bodies: the part of a body that is stored depends on the type bits, and trailing
    zeros are suppressed for some types (md2PutRecord, md2GetRecord, md2SuppressZero in md2io.c). */
module Codec {
  import opened Records

  /** The sizes of the record bodies; they depend on the width of `long`, so they stay symbolic. */
  datatype RawSizes = RawSizes(maxBody: nat, dirInode: nat, dirData: nat, dirHash: nat,
                               fileInode: nat, fileHash: nat, tagInode: nat)

  type Sizes = z: RawSizes |
      && 512 <= z.maxBody && z.dirInode <= z.maxBody && z.dirData <= z.maxBody && z.dirHash <= z.maxBody
      && z.fileInode <= z.maxBody && z.fileHash <= z.maxBody && z.tagInode <= z.maxBody
    witness RawSizes(928, 0, 0, 0, 0, 0, 0)

  datatype TypeBits = TypeBits(root: bool, dir: bool, regular: bool, link: bool, tag: bool, inode: bool, data: bool, hash: bool)

  /** The size of the body of a type.  File data and link data fill the whole record. */
  function TypeSize(z: Sizes, t: TypeBits): (n: nat)
    ensures n <= z.maxBody
  {
    if t.root then z.maxBody
    else if t.dir then
      if t.inode then z.dirInode else if t.data then z.dirData else if t.hash then z.dirHash else z.maxBody
    else if t.regular then
      if t.inode then z.fileInode else if t.data then z.maxBody else if t.hash then z.fileHash else z.maxBody
    else if t.link then
      if t.inode then z.fileInode else z.maxBody
    else if t.tag then z.tagInode
    else z.maxBody
  }

  ghost predicate ZeroFrom(p: seq<byte>, n: nat, size: nat) {
    n <= size <= |p| && forall k :: n <= k < size ==> p[k] == 0
  }

  /** The least multiple of 4 from which on the body is zero, if its size is such a multiple. */
  ghost predicate Suppressed(p: seq<byte>, size: nat, size0: nat) {
    && (size0 % 4 != 0 ==> size == size0)
    && (size0 % 4 == 0 ==>
          size % 4 == 0 && ZeroFrom(p, size, size0) && forall n: nat :: n % 4 == 0 && ZeroFrom(p, n, size0) ==> size <= n)
  }

  /** md2SuppressZero, compiled with record_suppression: the least multiple of 4 from which on the body is zero. */
  method SuppressZero(p: seq<byte>, size0: nat) returns (size: nat)
    requires size0 <= |p|
    ensures Suppressed(p, size, size0)
    ensures ZeroFrom(p, size, size0)
  {
    if size0 % 4 != 0 { return size0; }
    var l: int := size0 / 4 - 1;
    while l >= 0 && p[4 * l] == 0 && p[4 * l + 1] == 0 && p[4 * l + 2] == 0 && p[4 * l + 3] == 0
      invariant -1 <= l && 4 * (l + 1) <= size0 && ZeroFrom(p, 4 * (l + 1), size0)
    {
      l := l - 1;
    }
    size := 4 * (l + 1);
    forall n: nat | n % 4 == 0 && ZeroFrom(p, n, size0) ensures size <= n {
      LeastFour(p, l, size0, n);
    }
  }

  lemma LeastFour(p: seq<byte>, l: int, size0: nat, n: nat)
    requires -1 <= l && 4 * (l + 1) <= size0 <= |p|
    requires l >= 0 ==> !(p[4 * l] == 0 && p[4 * l + 1] == 0 && p[4 * l + 2] == 0 && p[4 * l + 3] == 0)
    requires n % 4 == 0 && ZeroFrom(p, n, size0)
    ensures 4 * (l + 1) <= n
  {
  }

  /** md2PutRecord: the part of the body that is stored. */
  method PutBody(z: Sizes, t: TypeBits, body: seq<byte>) returns (stored: seq<byte>)
    requires |body| == z.maxBody
    ensures |stored| <= z.maxBody && stored <= body
    ensures |stored| <= TypeSize(z, t) && ZeroFrom(body, |stored|, TypeSize(z, t))
    ensures var row := !t.root && t.dir && !t.inode && !t.data && t.hash;
            var block := !t.root && !t.dir && t.regular && !t.inode && t.data;
            if row then Suppressed(body, |stored|, z.dirHash)
            else if block then |stored| >= 512 && exists n: nat :: Suppressed(body, n, z.maxBody) && |stored| == Max(n, 512)
            else |stored| == TypeSize(z, t)
  {
    var size := TypeSize(z, t);
    if !t.root {
      if t.dir && !t.inode && !t.data && t.hash {
        size := SuppressZero(body, size);
      } else if !t.dir && t.regular && !t.inode && t.data {
        size := SuppressZero(body, size);
        size := Max(size, 512);
      }
    }
    stored := body[..size];
  }

  /** md2GetRecord: what was not stored is filled with zeros. */
  function GetBody(z: Sizes, stored: seq<byte>): (body: seq<byte>)
    requires |stored| <= z.maxBody
    ensures |body| == z.maxBody
  {
    stored + Zeros(z.maxBody - |stored|)
  }

  /** A body comes back as it was if and only if it is zero past the size of its type. */
  lemma RoundTrip(z: Sizes, t: TypeBits, body: seq<byte>, stored: seq<byte>)
    requires |body| == z.maxBody && stored <= body && |stored| <= TypeSize(z, t)
    requires ZeroFrom(body, |stored|, TypeSize(z, t))
    ensures GetBody(z, stored) == body <==> ZeroFrom(body, TypeSize(z, t), z.maxBody)
  {
    var back := GetBody(z, stored);
    if back == body {
      forall k | TypeSize(z, t) <= k < z.maxBody ensures body[k] == 0 {
        assert back[k] == 0;
      }
    }
    if ZeroFrom(body, TypeSize(z, t), z.maxBody) {
      forall k | 0 <= k < z.maxBody ensures back[k] == body[k] {
        assert k < |stored| ==> stored[k] == body[k];
      }
      assert back == body;
    }
  }

  /** The first `n` bytes come back, and the whole body exactly if nothing but zeros follows them. */
  ghost predicate Kept(z: Sizes, body: seq<byte>, back: seq<byte>, n: nat) {
    && |body| == |back| == z.maxBody && n <= z.maxBody
    && (forall k :: 0 <= k < n ==> back[k] == body[k])
    && (back == body <==> ZeroFrom(body, n, z.maxBody))
  }

  /** Storing a record and fetching it again: what is kept of each type. */
  method PutThenGet(z: Sizes, t: TypeBits, body: seq<byte>) returns (back: seq<byte>)
    requires |body| == z.maxBody
    ensures t.root ==> back == body
    ensures !t.root && t.dir && t.inode ==> Kept(z, body, back, z.dirInode)
    ensures !t.root && t.dir && !t.inode && t.data ==> Kept(z, body, back, z.dirData)
    ensures !t.root && t.dir && !t.inode && !t.data && t.hash ==> Kept(z, body, back, z.dirHash)
    ensures !t.root && !t.dir && (t.regular || t.link) && t.inode ==> Kept(z, body, back, z.fileInode)
    ensures !t.root && !t.dir && t.regular && !t.inode && !t.data && t.hash ==> Kept(z, body, back, z.fileHash)
    ensures !t.root && !t.dir && !t.regular && !t.link && t.tag ==> Kept(z, body, back, z.tagInode)
    ensures !t.root && t.dir && !t.inode && !t.data && !t.hash ==> back == body
    ensures !t.root && !t.dir && t.regular && !t.inode && (t.data || !t.hash) ==> back == body
    ensures !t.root && !t.dir && !t.regular && t.link && !t.inode ==> back == body
    ensures !t.root && !t.dir && !t.regular && !t.link && !t.tag ==> back == body
  {
    var stored := PutBody(z, t, body);
    back := GetBody(z, stored);
    RoundTrip(z, t, body, stored);
    KeptSize(z, t, body, stored);
  }

  lemma KeptSize(z: Sizes, t: TypeBits, body: seq<byte>, stored: seq<byte>)
    requires |body| == z.maxBody && stored <= body && |stored| <= TypeSize(z, t)
    requires ZeroFrom(body, |stored|, TypeSize(z, t))
    ensures Kept(z, body, GetBody(z, stored), TypeSize(z, t))
  {
    RoundTrip(z, t, body, stored);
  }
}
