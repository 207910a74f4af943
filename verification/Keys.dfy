/**
  Object keys of the archive bucket: their lexical order, which is the listing
  order, and the marker that compaction puts on its own output.
*/
module Keys {

  type Key = string

  /** The order of a listing: lexical, by code. */
  predicate Less(a: Key, b: Key) {
    b != [] && (a == [] || a[0] < b[0] || (a[0] == b[0] && Less(a[1..], b[1..])))
  }

  lemma {:induction false} LessIsTotal(a: Key, b: Key)
    ensures Less(a, b) || a == b || Less(b, a)
    ensures !(Less(a, b) && Less(b, a)) && !Less(a, a)
  {
    if a != [] && b != [] {
      LessIsTotal(a[1..], b[1..]);
      LessIsTotal(a[1..], a[1..]);
      assert a == [a[0]] + a[1..] && b == [b[0]] + b[1..];
    } else if a != [] {
      LessIsTotal(a[1..], a[1..]);
    }
  }

  lemma {:induction false} LessIsTransitive(a: Key, b: Key, c: Key)
    requires Less(a, b) && Less(b, c)
    ensures Less(a, c)
  {
    if a != [] && a[0] == b[0] && b[0] == c[0] {
      LessIsTransitive(a[1..], b[1..], c[1..]);
    }
  }

  const COMPACTED_MARKER := "_compacted-"

  /** One past the last slash: where the file name begins. */
  function NameStart(key: Key): (i: nat)
    ensures i <= |key|
    ensures i > 0 ==> key[i - 1] == '/'
    ensures forall j :: i <= j < |key| ==> key[j] != '/'
  {
    if key == [] then 0
    else if key[|key| - 1] == '/' then |key|
    else NameStart(key[..|key| - 1])
  }

  /** Everything up to the last slash: tenant, service, date and hour. */
  function Partition(key: Key): Key { key[..NameStart(key)] }

  predicate StartsWith(key: Key, prefix: string) {
    |prefix| <= |key| && key[..|prefix|] == prefix
  }

  predicate IsCompacted(key: Key) { StartsWith(key[NameStart(key)..], COMPACTED_MARKER) }

  predicate NoSlash(name: string) { forall i :: 0 <= i < |name| ==> name[i] != '/' }

  function CompactedName(digest: string): string { COMPACTED_MARKER + (digest + ".log.gz") }

  /** The key of the object compacted from a partition, given the digest of its sources. */
  function CompactedKey(partition: Key, digest: string): Key { partition + CompactedName(digest) }

  lemma {:induction false} NameStartIsLast(key: Key, i: nat)
    requires i <= |key| && (i > 0 ==> key[i - 1] == '/')
    requires forall j :: i <= j < |key| ==> key[j] != '/'
    ensures NameStart(key) == i
  {
    if i < |key| {
      NameStartIsLast(key[..|key| - 1], i);
    }
  }

  lemma NameAfterPartition(partition: Key, name: string)
    requires NameStart(partition) == |partition| && NoSlash(name)
    ensures NameStart(partition + name) == |partition|
    ensures (partition + name)[|partition|..] == name && (partition + name)[..|partition|] == partition
  {
    var key := partition + name;
    forall j | |partition| <= j < |key| ensures key[j] != '/' {
      assert key[j] == name[j - |partition|];
    }
    NameStartIsLast(key, |partition|);
  }

  lemma CompactedNameIsMarked(digest: string)
    requires NoSlash(digest)
    ensures NoSlash(CompactedName(digest)) && StartsWith(CompactedName(digest), COMPACTED_MARKER)
  {
    var marker, rest := COMPACTED_MARKER, digest + ".log.gz";
    assert NoSlash(marker) && NoSlash(".log.gz");
    assert NoSlash(rest);
    assert (marker + rest)[..|marker|] == marker;
  }

  /** Compaction's output is recognised as such, and lies in its partition. */
  lemma CompactedKeyIsMarked(partition: Key, digest: string)
    requires NameStart(partition) == |partition| && NoSlash(digest)
    ensures IsCompacted(CompactedKey(partition, digest))
    ensures Partition(CompactedKey(partition, digest)) == partition
  {
    CompactedNameIsMarked(digest);
    NameAfterPartition(partition, CompactedName(digest));
  }

  /** Its name tells the partition and the digest. */
  lemma CompactedKeyTells(p: Key, q: Key, d: string, e: string)
    requires NameStart(p) == |p| && NameStart(q) == |q| && NoSlash(d) && NoSlash(e)
    requires CompactedKey(p, d) == CompactedKey(q, e)
    ensures p == q && d == e
  {
    CompactedKeyIsMarked(p, d);
    CompactedKeyIsMarked(q, e);
    CompactedNameTells(d, e, CompactedKey(p, d)[|p|..], CompactedKey(q, e)[|q|..]);
  }

  lemma CompactedNameTells(d: string, e: string, x: string, y: string)
    requires x == CompactedName(d) && y == CompactedName(e) && x == y
    ensures d == e
  {
    var m, n := |COMPACTED_MARKER|, |COMPACTED_MARKER| + |d|;
    assert |x| == n + |".log.gz"| && |d| == |e|;
    assert x[m..n] == d && y[m..n] == e;
  }
}
