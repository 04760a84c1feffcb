/** The registry's counters over all peers. */
module RegistryCounters {
  import opened Common
  import opened Sources
  import opened SourceRegistry
  import opened RegistryShape

  ghost function Sum(keys: set<PeerKey>, f: PeerKey -> nat): nat {
    if keys == {} then 0 else
      var k :| k in keys;
      f(k) + Sum(keys - {k}, f)
  }

  lemma {:induction false} SumRemove(keys: set<PeerKey>, f: PeerKey -> nat, k: PeerKey)
    requires k in keys
    ensures Sum(keys, f) == f(k) + Sum(keys - {k}, f)
    decreases |keys|
  {
    var first :| first in keys && Sum(keys, f) == f(first) + Sum(keys - {first}, f);
    if first != k {
      SumRemove(keys - {first}, f, k);
      SumRemove(keys - {k}, f, first);
      assert keys - {first} - {k} == keys - {k} - {first};
    }
  }

  lemma {:induction false} SumSubset(small: set<PeerKey>, big: set<PeerKey>, f: PeerKey -> nat, g: PeerKey -> nat)
    requires small <= big
    requires forall k :: k in small ==> f(k) == g(k)
    requires forall k :: k in big - small ==> g(k) == 0
    ensures Sum(small, f) == Sum(big, g)
    decreases |big|
  {
    if big != {} {
      var k :| k in big;
      SumRemove(big, g, k);
      if k in small {
        SumRemove(small, f, k);
        SumSubset(small - {k}, big - {k}, f, g);
      } else {
        SumSubset(small, big - {k}, f, g);
      }
    }
  }

  lemma {:induction false} SumOneMore(keys: set<PeerKey>, f: PeerKey -> nat, g: PeerKey -> nat)
    requires forall k :: k in keys ==> f(k) == g(k) + 1
    ensures Sum(keys, f) == Sum(keys, g) + |keys|
    decreases |keys|
  {
    if keys != {} {
      var k :| k in keys;
      SumRemove(keys, f, k);
      SumRemove(keys, g, k);
      SumOneMore(keys - {k}, f, g);
    }
  }

  lemma {:induction false} SumPositive(keys: set<PeerKey>, f: PeerKey -> nat) returns (k: PeerKey)
    requires Sum(keys, f) > 0
    ensures k in keys && f(k) > 0
    decreases |keys|
  {
    k :| k in keys && Sum(keys, f) == f(k) + Sum(keys - {k}, f);
    if f(k) == 0 {
      k := SumPositive(keys - {k}, f);
    }
  }

  // ---------------------------------------------------------------- the counters

  ghost function Lengths(peers: Peers): PeerKey -> nat {
    (k: PeerKey) => |Get(peers, k)|
  }

  /** Candidates beyond a peer's first, none for a peer with a single one. */
  ghost function Extras(peers: Peers): PeerKey -> nat {
    (k: PeerKey) => if |Get(peers, k)| > 1 then |Get(peers, k)| - 1 else 0
  }

  ghost function LiveFor(now: Instant, file: FileHash): Candidate -> bool {
    (c: Candidate) => c.fileHash == file && !IsStale(c, now)
  }

  ghost function Lives(peers: Peers, now: Instant, file: FileHash): PeerKey -> nat {
    (k: PeerKey) => |Retain(Get(peers, k), LiveFor(now, file))|
  }

  ghost function CandidateCount(peers: Peers): nat {
    Sum(peers.Keys, Lengths(peers))
  }

  ghost function A4afCandidateCount(peers: Peers): nat {
    Sum(peers.Keys, Extras(peers))
  }

  ghost function CandidateCountForFile(peers: Peers, now: Instant, file: FileHash): nat {
    Sum(peers.Keys, Lives(peers, now, file))
  }

  ghost function A4afFiles(peers: Peers): set<FileHash> {
    set k, i | k in peers && |peers[k]| > 1 && 0 <= i < |peers[k]| :: peers[k][i].fileHash
  }

  /** Every candidate is its peer's first or an A4AF relation. */
  lemma CountsAgree(peers: Peers)
    requires Shape(peers)
    ensures CandidateCount(peers) == |peers| + A4afCandidateCount(peers)
  {
    forall k | k in peers.Keys ensures Lengths(peers)(k) == Extras(peers)(k) + 1 {
      assert WellKept(k, peers[k]);
    }
    SumOneMore(peers.Keys, Lengths(peers), Extras(peers));
    assert |peers| == |peers.Keys|;
  }

  /** One A4AF relation involves at least two files. */
  lemma A4afNeedsTwoFiles(peers: Peers)
    requires Shape(peers) && A4afCandidateCount(peers) > 0
    ensures |A4afFiles(peers)| >= 2
  {
    var k := SumPositive(peers.Keys, Extras(peers));
    assert WellKept(k, peers[k]);
    var a, b := peers[k][0].fileHash, peers[k][1].fileHash;
    assert {a, b} <= A4afFiles(peers);
    SubsetSize({a, b}, A4afFiles(peers));
  }

  lemma {:induction false} SubsetSize(a: set<FileHash>, b: set<FileHash>)
    requires a <= b
    ensures |a| <= |b|
  {
    if a != {} {
      var x :| x in a;
      SubsetSize(a - {x}, b - {x});
    }
  }

  lemma {:induction false} RetainTwice(cs: seq<Candidate>, outer: Candidate -> bool, inner: Candidate -> bool)
    requires forall c :: c in cs && inner(c) ==> outer(c)
    ensures Retain(Retain(cs, outer), inner) == Retain(cs, inner)
  {
    if cs != [] {
      var init := cs[..|cs| - 1];
      assert cs == init + [Last(cs)];
      RetainTwice(init, outer, inner);
      var rest := Retain(init, outer);
      if outer(Last(cs)) {
        assert (rest + [Last(cs)])[..|rest|] == rest;
      }
    }
  }

  /** Pruning now changes no live count, asked now or later: it only drops what no longer counts. */
  lemma PruneInvisible(r: Registry, now: Instant, t: Instant, file: FileHash)
    requires now <= t
    ensures CandidateCountForFile(Prune(r, now).peers, t, file) == CandidateCountForFile(r.peers, t, file)
  {
    var pruned := Prune(r, now).peers;
    forall k | k in r.peers.Keys
      ensures |Retain(Retain(r.peers[k], Fresh(now)), LiveFor(t, file))| == Lives(r.peers, t, file)(k)
    {
      RetainTwice(r.peers[k], Fresh(now), LiveFor(t, file));
    }
    forall k | k in r.peers.Keys - pruned.Keys ensures Lives(r.peers, t, file)(k) == 0 {
      assert Retain(r.peers[k], Fresh(now)) == [];
    }
    SumSubset(pruned.Keys, r.peers.Keys, Lives(pruned, t, file), Lives(r.peers, t, file));
  }

  // ---------------------------------------------------------------- what the counters count

  /** A peer with a live candidate for the file counts once. */
  ghost predicate LivePeer(peers: Peers, now: Instant, file: FileHash, k: PeerKey) {
    k in peers && exists c :: c in peers[k] && c.fileHash == file && now <= c.lastSeen + 3600 * SECOND
  }

  lemma {:induction false} SumOnes(keys: set<PeerKey>, f: PeerKey -> nat, chosen: set<PeerKey>)
    requires chosen <= keys && forall k :: k in keys ==> f(k) == if k in chosen then 1 else 0
    ensures Sum(keys, f) == |chosen|
    decreases |keys|
  {
    if keys != {} {
      var k :| k in keys;
      SumRemove(keys, f, k);
      SumOnes(keys - {k}, f, chosen - {k});
    }
  }

  lemma {:induction false} AtMostOne(cs: seq<Candidate>, now: Instant, file: FileHash)
    requires Distinct(cs)
    ensures |Retain(cs, LiveFor(now, file))| <= 1
    ensures |Retain(cs, LiveFor(now, file))| == 1 <==>
      exists c :: c in cs && c.fileHash == file && now <= c.lastSeen + 3600 * SECOND
  {
    if cs != [] {
      var init, last := cs[..|cs| - 1], Last(cs);
      AtMostOne(init, now, file);
      assert cs == init + [last];
      if LiveFor(now, file)(last) {
        forall c | c in init ensures c.fileHash != file {
        }
        assert last in cs;
      }
    }
  }

  /** The per-file count is the number of peers with a candidate for it seen in the last hour. */
  lemma CountForFileMeans(peers: Peers, now: Instant, file: FileHash)
    requires Shape(peers)
    ensures CandidateCountForFile(peers, now, file) == |set k | k in peers && LivePeer(peers, now, file, k)|
  {
    var chosen := set k | k in peers && LivePeer(peers, now, file, k);
    forall k | k in peers.Keys ensures Lives(peers, now, file)(k) == if k in chosen then 1 else 0 {
      assert WellKept(k, peers[k]);
      AtMostOne(peers[k], now, file);
    }
    SumOnes(peers.Keys, Lives(peers, now, file), chosen);
  }

  /** The A4AF relations of a peer: its files beyond one, none for a peer with a single file. */
  lemma ExtrasMean(peers: Peers, k: PeerKey)
    requires Shape(peers) && k in peers
    ensures Extras(peers)(k) + 1 == Lengths(peers)(k) == |FilesOf(peers[k], |peers[k]|)|
  {
    assert WellKept(k, peers[k]);
    FilesCount(peers[k], |peers[k]|);
  }

  /** The files a peer's first `n` candidates are for. */
  ghost function FilesOf(cs: seq<Candidate>, n: nat): set<FileHash>
    requires n <= |cs|
  {
    set i | 0 <= i < n :: cs[i].fileHash
  }

  lemma {:induction false} FilesCount(cs: seq<Candidate>, n: nat)
    requires Distinct(cs) && n <= |cs|
    ensures |FilesOf(cs, n)| == n
  {
    if n > 0 {
      FilesCount(cs, n - 1);
      assert FilesOf(cs, n) == FilesOf(cs, n - 1) + {cs[n - 1].fileHash};
    }
  }

  /** A file is an A4AF file exactly when some peer has it together with another. */
  lemma A4afFilesMean(peers: Peers, file: FileHash)
    requires Shape(peers)
    ensures file in A4afFiles(peers) <==>
      exists k, c, d :: k in peers && c in peers[k] && d in peers[k] && c.fileHash == file && d.fileHash != file
  {
    if file in A4afFiles(peers) {
      var k, i :| k in peers && |peers[k]| > 1 && 0 <= i < |peers[k]| && peers[k][i].fileHash == file;
      assert WellKept(k, peers[k]);
      var d := peers[k][if i == 0 then 1 else 0];
      assert peers[k][i] in peers[k] && d in peers[k];
    }
    if k, c, d :| k in peers && c in peers[k] && d in peers[k] && c.fileHash == file && d.fileHash != file {
      var i :| 0 <= i < |peers[k]| && peers[k][i] == c;
      var j :| 0 <= j < |peers[k]| && peers[k][j] == d;
      assert |peers[k]| > 1;
    }
  }
}
