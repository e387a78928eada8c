/** The audit-log blockchain: logs wait in a pending list, a block is cut from
    them once the list is full, and each block carries the hash of its
    predecessor and a proof of work. The SHA-256 digest of a block's fields is
    an arbitrary function `hasher` supplied by the caller. */
module Blockchain {
  import opened Common

  /** A log entry: a dictionary from field names to values. */
  type Log = map<string, string>

  /** The fields a block's hash covers. */
  datatype Header = Header(index: nat, timestamp: real, logs: seq<Log>, previousHash: string, nonce: nat)

  datatype Block = Block(header: Header, hash: string)

  type Hasher = Header -> string

  /** Python's slice `hash[:n]`. */
  function Prefix(hash: string, n: nat): string
  {
    if n <= |hash| then hash[..n] else hash
  }

  /** The proof-of-work test `hash[:difficulty] == "0" * difficulty`. */
  predicate MeetsTarget(hash: string, difficulty: nat)
  {
    Prefix(hash, difficulty) == Repeat('0', difficulty)
  }

  /** A hash meets the target exactly when it is long enough and starts with
      `difficulty` zeros. */
  lemma MeetsTargetIff(hash: string, difficulty: nat)
    ensures MeetsTarget(hash, difficulty) <==>
            difficulty <= |hash| && forall i :: 0 <= i < difficulty ==> hash[i] == '0'
  {
    if MeetsTarget(hash, difficulty) {
      assert |Prefix(hash, difficulty)| == difficulty;
    }
    if difficulty <= |hash| && forall i :: 0 <= i < difficulty ==> hash[i] == '0' {
      assert hash[..difficulty] == Repeat('0', difficulty);
    }
  }

  /** `mine_block`: from the header's nonce upwards, the first nonce whose hash
      meets the target. The source searches without bound; here at most
      `fuel` further nonces are tried. */
  method MineBlock(h: Header, hasher: Hasher, difficulty: nat, fuel: nat) returns (b: Block, found: bool)
    ensures b.header == h.(nonce := b.header.nonce) && h.nonce <= b.header.nonce
    ensures b.hash == hasher(b.header)
    ensures found <==> MeetsTarget(b.hash, difficulty)
    ensures forall n :: h.nonce <= n < b.header.nonce ==> !MeetsTarget(hasher(h.(nonce := n)), difficulty)
    ensures !found ==> b.header.nonce == h.nonce + fuel
  {
    var nonce := h.nonce;
    var hash := hasher(h);
    while !MeetsTarget(hash, difficulty) && nonce < h.nonce + fuel
      invariant h.nonce <= nonce <= h.nonce + fuel
      invariant hash == hasher(h.(nonce := nonce))
      invariant forall n :: h.nonce <= n < nonce ==> !MeetsTarget(hasher(h.(nonce := n)), difficulty)
      decreases h.nonce + fuel - nonce
    {
      nonce := nonce + 1;
      hash := hasher(h.(nonce := nonce));
    }
    b := Block(h.(nonce := nonce), hash);
    found := MeetsTarget(hash, difficulty);
  }

  /** The header `mine_pending_logs` builds for the next block, with nonce
      `nonce`: numbered by the chain length, stamped `now`, holding the
      pending logs and linked to the last block. */
  function NextHeader(chain: seq<Block>, logs: seq<Log>, now: real, nonce: nat): Header
    requires |chain| >= 1
  {
    Header(|chain|, now, logs, chain[|chain| - 1].hash, nonce)
  }

  /** Block `i` recomputes its own hash, names its predecessor's hash and
      carries the proof of work. */
  predicate BlockOk(chain: seq<Block>, i: nat, hasher: Hasher, difficulty: nat)
    requires 1 <= i < |chain|
  {
    chain[i].hash == hasher(chain[i].header)
    && chain[i].header.previousHash == chain[i - 1].hash
    && MeetsTarget(chain[i].hash, difficulty)
  }

  /** What `is_chain_valid` accepts: every block after the genesis block is
      sound (the genesis block itself is never checked). */
  predicate ChainValid(chain: seq<Block>, hasher: Hasher, difficulty: nat)
  {
    forall i :: 1 <= i < |chain| ==> BlockOk(chain, i, hasher, difficulty)
  }

  /** Appending a freshly mined block that links to the last one keeps a valid
      chain valid, and a valid chain's prefixes are valid. */
  lemma AppendMinedKeepsValid(chain: seq<Block>, b: Block, hasher: Hasher, difficulty: nat)
    requires |chain| >= 1
    ensures ChainValid(chain + [b], hasher, difficulty) <==>
            ChainValid(chain, hasher, difficulty)
            && b.hash == hasher(b.header) && b.header.previousHash == chain[|chain| - 1].hash
            && MeetsTarget(b.hash, difficulty)
  {
    var c := chain + [b];
    assert forall i :: 1 <= i < |chain| ==> BlockOk(c, i, hasher, difficulty) == BlockOk(chain, i, hasher, difficulty);
    if ChainValid(c, hasher, difficulty) {
      assert BlockOk(c, |chain|, hasher, difficulty);
    }
  }

  /** Any block of a chain can be tampered with and the chain then fails: a
      chain whose block `i` does not recompute its hash is invalid. */
  lemma TamperedBlockInvalidates(chain: seq<Block>, i: nat, hasher: Hasher, difficulty: nat)
    requires 1 <= i < |chain| && chain[i].hash != hasher(chain[i].header)
    ensures !ChainValid(chain, hasher, difficulty)
  {
    assert !BlockOk(chain, i, hasher, difficulty);
  }

  /** An entry of `search_logs`'s result. */
  datatype Hit = Hit(blockIndex: nat, blockHash: string, log: Log)

  /** Every filter key is present in the log with the same value (an empty
      filter matches everything). */
  predicate Matches(log: Log, filters: map<string, string>)
  {
    forall k :: k in filters ==> k in log && log[k] == filters[k]
  }

  function BlockHits(b: Block, logs: seq<Log>, filters: map<string, string>): (r: seq<Hit>)
    ensures |r| <= |logs|
  {
    if logs == [] then []
    else
      BlockHits(b, logs[..|logs| - 1], filters)
      + (if Matches(logs[|logs| - 1], filters) then [Hit(b.header.index, b.hash, logs[|logs| - 1])] else [])
  }

  /** The hits of `search_logs`, block by block and log by log. */
  function Search(chain: seq<Block>, filters: map<string, string>): seq<Hit>
  {
    if chain == [] then []
    else Search(chain[..|chain| - 1], filters) + BlockHits(chain[|chain| - 1], chain[|chain| - 1].header.logs, filters)
  }

  /** A block's hits are exactly its matching logs, tagged with that block. */
  lemma {:induction false} BlockHitsSpec(b: Block, logs: seq<Log>, filters: map<string, string>)
    ensures forall h :: h in BlockHits(b, logs, filters) <==>
              h.blockIndex == b.header.index && h.blockHash == b.hash && h.log in logs && Matches(h.log, filters)
  {
    if logs != [] {
      BlockHitsSpec(b, logs[..|logs| - 1], filters);
      assert logs == logs[..|logs| - 1] + [logs[|logs| - 1]];
    }
  }

  /** With no filter every log of the chain is returned. */
  lemma {:induction false} SearchUnfilteredCount(chain: seq<Block>)
    ensures |Search(chain, map[])| == TotalLogs(chain)
  {
    if chain != [] {
      SearchUnfilteredCount(chain[..|chain| - 1]);
      var b := chain[|chain| - 1];
      BlockHitsAll(b, b.header.logs);
    }
  }

  lemma {:induction false} BlockHitsAll(b: Block, logs: seq<Log>)
    ensures |BlockHits(b, logs, map[])| == |logs|
  {
    if logs != [] {
      BlockHitsAll(b, logs[..|logs| - 1]);
    }
  }

  function TotalLogs(chain: seq<Block>): nat
  {
    if chain == [] then 0 else TotalLogs(chain[..|chain| - 1]) + |chain[|chain| - 1].header.logs|
  }

  /** A search hit comes from a block of the chain and carries a matching log
      of that block; every matching log of every block is found. */
  lemma {:induction false} SearchSpec(chain: seq<Block>, filters: map<string, string>)
    ensures forall h :: h in Search(chain, filters) ==>
              Matches(h.log, filters) && exists i :: 0 <= i < |chain| && h.blockIndex == chain[i].header.index
                                                     && h.blockHash == chain[i].hash && h.log in chain[i].header.logs
    ensures forall i, l :: 0 <= i < |chain| && l in chain[i].header.logs && Matches(l, filters) ==>
              Hit(chain[i].header.index, chain[i].hash, l) in Search(chain, filters)
  {
    if chain != [] {
      var front := chain[..|chain| - 1];
      var b := chain[|chain| - 1];
      var hits := Search(chain, filters);
      assert hits == Search(front, filters) + BlockHits(b, b.header.logs, filters);
      SearchSpec(front, filters);
      BlockHitsSpec(b, b.header.logs, filters);
      forall h | h in hits
        ensures Matches(h.log, filters) && exists i :: 0 <= i < |chain| && h.blockIndex == chain[i].header.index
                                                       && h.blockHash == chain[i].hash && h.log in chain[i].header.logs
      {
        if h in Search(front, filters) {
          var i :| 0 <= i < |front| && h.blockIndex == front[i].header.index
                   && h.blockHash == front[i].hash && h.log in front[i].header.logs;
          assert chain[i] == front[i];
        } else {
          var last := |chain| - 1;
          assert h in BlockHits(b, b.header.logs, filters);
          assert h.blockIndex == chain[last].header.index && h.blockHash == chain[last].hash
                 && h.log in chain[last].header.logs;
        }
      }
      forall i, l | 0 <= i < |chain| && l in chain[i].header.logs && Matches(l, filters)
        ensures Hit(chain[i].header.index, chain[i].hash, l) in hits
      {
        if i < |front| {
          assert chain[i] == front[i];
          assert Hit(chain[i].header.index, chain[i].hash, l) in Search(front, filters);
        } else {
          assert chain[i] == b;
          assert Hit(b.header.index, b.hash, l) in BlockHits(b, b.header.logs, filters);
        }
      }
    }
  }

  /** The inner filter loop of `search_logs`, which stops at the first key
      that is missing or differs. */
  method LogMatches(log: Log, filters: map<string, string>) returns (m: bool)
    ensures m == Matches(log, filters)
  {
    m := true;
    var keys := filters.Keys;
    while keys != {}
      invariant keys <= filters.Keys
      invariant m == forall k :: k in filters.Keys - keys ==> k in log && log[k] == filters[k]
      decreases |keys|
    {
      var key :| key in keys;
      if key !in log || log[key] != filters[key] {
        return false;
      }
      keys := keys - {key};
    }
  }

  class Chain {
    var chain: seq<Block>
    var pendingLogs: seq<Log>
    const difficulty: nat
    const blockSize: nat
    const hasher: Hasher

    ghost predicate Valid()
      reads this
    {
      |chain| >= 1
    }

    /** `create_genesis_block`: block 0 at time `now`, with no logs and
        previous hash "0". It is kept whether or not its search succeeds,
        since its proof of work is never checked. */
    constructor (difficulty: nat, blockSize: nat, hasher: Hasher, now: real, fuel: nat)
      ensures Valid() && ChainValid(chain, hasher, difficulty)
      ensures |chain| == 1 && chain[0].header.index == 0 && chain[0].header.logs == []
      ensures chain[0].header.previousHash == "0" && chain[0].hash == hasher(chain[0].header)
      ensures pendingLogs == []
      ensures this.difficulty == difficulty && this.blockSize == blockSize && this.hasher == hasher
    {
      this.difficulty := difficulty;
      this.blockSize := blockSize;
      this.hasher := hasher;
      var genesis, _ := MineBlock(Header(0, now, [], "0", 0), hasher, difficulty, fuel);
      chain := [genesis];
      pendingLogs := [];
    }

    /** `mine_pending_logs`: nothing happens without pending logs (or when the
        nonce search runs out of fuel); otherwise a block holding exactly the
        pending logs, numbered by the chain length and linked to the last
        block, is appended and the pending list is emptied. */
    method MinePendingLogs(now: real, fuel: nat) returns (mined: bool)
      requires Valid()
      modifies this
      ensures Valid()
      ensures old(pendingLogs) == [] ==> !mined
      ensures !mined ==> chain == old(chain) && pendingLogs == old(pendingLogs)
      ensures !mined && old(pendingLogs) != [] ==>
                forall n :: 0 <= n <= fuel ==> !MeetsTarget(hasher(NextHeader(old(chain), old(pendingLogs), now, n)), difficulty)
      ensures mined ==> |chain| == |old(chain)| + 1 && chain[..|old(chain)|] == old(chain) && pendingLogs == []
      ensures mined ==> var b := chain[|chain| - 1];
                        b.header == NextHeader(old(chain), old(pendingLogs), now, b.header.nonce)
                        && b.hash == hasher(b.header) && MeetsTarget(b.hash, difficulty)
                        && forall n :: 0 <= n < b.header.nonce ==> !MeetsTarget(hasher(NextHeader(old(chain), old(pendingLogs), now, n)), difficulty)
      ensures ChainValid(old(chain), hasher, difficulty) ==> ChainValid(chain, hasher, difficulty)
    {
      if pendingLogs == [] {
        return false;
      }
      var header := NextHeader(chain, pendingLogs, now, 0);
      var b, found := MineBlock(header, hasher, difficulty, fuel);
      if !found {
        return false;
      }
      AppendMinedKeepsValid(chain, b, hasher, difficulty);
      chain := chain + [b];
      pendingLogs := [];
      assert chain[..|old(chain)|] == old(chain);
      return true;
    }

    /** `add_log`: the log joins the pending list, and a block is cut once the
        list holds `blockSize` logs. */
    method AddLog(log: Log, now: real, fuel: nat) returns (mined: bool)
      requires Valid()
      modifies this
      ensures Valid()
      ensures |old(pendingLogs)| + 1 < blockSize ==> !mined
      ensures !mined ==> chain == old(chain) && pendingLogs == old(pendingLogs) + [log]
      ensures !mined && |old(pendingLogs)| + 1 >= blockSize ==>
                forall n :: 0 <= n <= fuel ==> !MeetsTarget(hasher(NextHeader(old(chain), old(pendingLogs) + [log], now, n)), difficulty)
      ensures mined ==> |chain| == |old(chain)| + 1 && chain[..|old(chain)|] == old(chain) && pendingLogs == []
                        && var b := chain[|chain| - 1];
                        b.header == NextHeader(old(chain), old(pendingLogs) + [log], now, b.header.nonce)
                        && b.hash == hasher(b.header) && MeetsTarget(b.hash, difficulty)
      ensures ChainValid(old(chain), hasher, difficulty) ==> ChainValid(chain, hasher, difficulty)
    {
      pendingLogs := pendingLogs + [log];
      mined := false;
      if |pendingLogs| >= blockSize {
        mined := MinePendingLogs(now, fuel);
      }
    }

    /** `is_chain_valid`: checks blocks 1, 2, … in order and stops at the
        first unsound one. */
    method IsChainValid() returns (valid: bool)
      ensures valid <==> ChainValid(chain, hasher, difficulty)
    {
      var i := 1;
      while i < |chain|
        invariant 1 <= i || |chain| == 0
        invariant forall k :: 1 <= k < i && k < |chain| ==> BlockOk(chain, k, hasher, difficulty)
      {
        var current := chain[i];
        var previous := chain[i - 1];
        if current.hash != hasher(current.header) || current.header.previousHash != previous.hash
           || !MeetsTarget(current.hash, difficulty) {
          assert !BlockOk(chain, i, hasher, difficulty);
          return false;
        }
        i := i + 1;
      }
      return true;
    }

    /** `search_logs`: every log that matches the filters, with its block's
        index and hash, in chain order. */
    method SearchLogs(filters: map<string, string>) returns (results: seq<Hit>)
      ensures results == Search(chain, filters)
    {
      results := [];
      var i := 0;
      while i < |chain|
        invariant 0 <= i <= |chain|
        invariant results == Search(chain[..i], filters)
      {
        var block := chain[i];
        var j := 0;
        ghost var before := results;
        while j < |block.header.logs|
          invariant 0 <= j <= |block.header.logs|
          invariant results == before + BlockHits(block, block.header.logs[..j], filters)
        {
          var log := block.header.logs[j];
          var m := LogMatches(log, filters);
          if m {
            results := results + [Hit(block.header.index, block.hash, log)];
          }
          assert block.header.logs[..j + 1][..j] == block.header.logs[..j];
          j := j + 1;
        }
        assert block.header.logs[..j] == block.header.logs;
        assert chain[..i + 1][..i] == chain[..i];
        i := i + 1;
      }
      assert chain[..i] == chain;
    }
  }
}
