/** The coordinator's shard state, updated in place as the sharding functions do. */
module Shardings {
  import opened Seqs
  import opened ShardMaps
  import opened ShardingSpec
  import opened ShardingProofs

  class Coordinator {
    var shard: Info
    var prevShard: Info
    var inTransaction: bool
    var worker: Option<int>
    var isRead: bool
    var sqlhash: int
    const config: Config

    constructor (config: Config)
      ensures this.config == config && Abs() == START
    {
      this.config := config;
      shard, prevShard := START.shard, START.prev;
      inTransaction, worker, isRead, sqlhash := false, None, false, 0;
    }

    function Abs(): State
      reads this
    {
      State(shard, prevShard, inTransaction, worker)
    }

    method ProcessSetShardID(val: Option<int>) returns (ok: bool)
      modifies this`shard
      ensures (Abs(), ok) == ShardSet(config, old(Abs()), val)
    {
      if !config.sharding && (val.None? || (val.value != 0 && val.value != UNSET)) {
        return false;
      }
      if val.None? || val.value < -1 || val.value >= config.shards {
        return false;
      }
      shard := shard.(session := val.value);
      if inTransaction && worker.Some? {
        if worker.value != shard.session {
          return false;
        }
      }
      shard := shard.(shardID := shard.session);
      if (config.whitelist || !config.sharding) && shard.shardID == UNSET {
        shard := shard.(shardID := 0);
      }
      return true;
    }

    /** The loop of computeLogicalShards: the records, and the values it keeps. */
    method CollectRecs(m: Maps, values: seq<string>) returns (recs: seq<Rec>, kept: seq<string>)
      requires m.table != []
      ensures recs == RecsFor(config, m, values) && kept == ValuesFor(config, values)
    {
      recs, kept := [], values;
      for i := 0 to |values|
        invariant kept == values && |recs| == i
        invariant Single(config) ==> i <= 1
        invariant forall k :: 0 <= k < i ==> recs[k] == RecFor(config, m, values[k])
        invariant Single(config) && i == 1 ==> !(config.whitelist && values[0] == "")
      {
        var v := values[i];
        if v == "" && config.whitelist {
          return recs + [SHARD0], kept;
        }
        if config.whitelist || !config.useMap {
          if |recs| == 1 {
            return recs, kept[..1];
          }
          if m.listed(v).Some? {
            var rec := m.listed(v).value;
            if rec.logical >= 0 && rec.logical < config.shards {
              recs := recs + [rec];
            } else {
              recs := recs + [Lookup(m, v)];
            }
          } else {
            recs := recs + [Lookup(m, v)];
          }
        } else {
          recs := recs + [Lookup(m, v)];
        }
      }
    }

    method ComputeLogicalShards(m: Maps)
      requires m.table != []
      modifies this`shard
      ensures shard == Computed(config, m, old(shard))
    {
      var recs, kept := CollectRecs(m, shard.values);
      shard := shard.(recs := recs, values := kept);
      if |shard.recs| > 0 {
        shard := shard.(shardID := shard.recs[0].logical);
      } else {
        shard := shard.(values := []);
      }
    }

    /** The loop over the sub-commands and what autodiscovery adds. */
    method Discover(m: Maps, parts: seq<Part>) returns (verdict: Verdict)
      requires m.table != []
      modifies this`shard
      ensures Checked(shard, verdict)
           == Walk(config, m, sqlhash, prevShard.session, parts, if parts == [] then 0 else 1, old(shard), false)
    {
      var autodisc := false;
      var i := if parts == [] then 0 else 1;
      while i < |parts|
        invariant 0 <= i <= |parts|
        invariant Walk(config, m, sqlhash, prevShard.session, parts, i, shard, autodisc)
               == Walk(config, m, sqlhash, prevShard.session, parts, if parts == [] then 0 else 1, old(shard), false)
      {
        match parts[i].kind {
          case KeyBind =>
            if shard.session != UNSET {
              return Refused(true, AutodiscoverWhileSet);
            }
            if i < |parts| - 1 {
              if !autodisc {
                shard := Info([], [], prevShard.session, 0, 0);
              }
              shard := shard.(values := shard.values + [parts[i + 1].payload]);
              autodisc := true;
            }
          case ShardKey(named, vals) =>
            if shard.session != UNSET {
              return Refused(true, BothApis);
            }
            if !named {
              if !config.whitelist && config.useMap {
                return Refused(false, NoShardKey);
              }
            } else {
              shard := shard.(values := vals);
            }
            shard := shard.(sqlhash := sqlhash);
            ComputeLogicalShards(m);
            return Accepted;
          case Plain =>
        }
        i := i + 1;
      }
      if autodisc {
        ComputeLogicalShards(m);
        shard := shard.(sqlhash := sqlhash);
      }
      return Accepted;
    }

    /** PreprocessSharding. */
    method PreprocessSharding(m: Maps, parts: seq<Part>) returns (verdict: Verdict)
      requires m.table != []
      modifies this`shard, this`prevShard
      ensures Routed(Abs(), verdict) == Preprocessed(config, m, old(Abs()), Request(parts, isRead, sqlhash))
    {
      ghost var st := Abs();
      KeysHaveRecords(config, m, st, Request(parts, isRead, sqlhash));
      if inTransaction {
        prevShard := shard;
        shard := shard.(values := [], recs := []);
      } else {
        shard := shard.(recs := [], values := []);
        prevShard := prevShard.(session := shard.session);
      }
      verdict := Discover(m, parts);
      if verdict != Accepted {
        return;
      }
      if |shard.values| == 0 && shard.session == UNSET {
        if config.whitelist || !config.useMap {
          shard := shard.(recs := [SHARD0]);
        }
      }
      verdict := VerifyValidShard();
      if verdict != Accepted {
        return;
      }
      if inTransaction {
        verdict := VerifyXShard(prevShard.values, prevShard.shardID);
      }
    }

    /** Keys must come with records, or the look at the first record fails. */
    method VerifyValidShard() returns (verdict: Verdict)
      requires shard.values != [] ==> shard.recs != []
      modifies this`shard
      ensures Checked(shard, verdict) == Verified(config, isRead, old(shard))
    {
      if |shard.values| > 0 && (shard.recs[0].flags.badLogical || shard.recs[0].logical >= config.shards) {
        if config.whitelist {
          shard := shard.(recs := shard.recs[0 := SHARD0]);
          shard := shard.(shardID := 0);
        } else {
          return Refused(|shard.values| > 0 && shard.recs[0].flags.badLogical, NoShardKey);
        }
      }
      if |shard.values| > 1 || (|shard.values| == 0 && shard.session == UNSET && |shard.recs| == 0) {
        return Refused(|shard.values| > 0 && shard.recs[0].flags.badLogical, NoShardKey);
      }
      if |shard.recs| > 0 {
        if isRead {
          if shard.recs[0].flags.readDown {
            return Refused(true, MarkdownRead);
          }
        } else {
          if shard.recs[0].flags.writeDown {
            return Refused(true, MarkdownWrite);
          }
        }
      }
      return Accepted;
    }

    method VerifyXShard(oldValues: seq<string>, oldShardID: int) returns (verdict: Verdict)
      requires oldValues == prevShard.values && oldShardID == prevShard.shardID
      ensures verdict == CrossCheck(config, isRead, prevShard, shard)
    {
      if !isRead {
        if |oldValues| > 0 && |shard.values| > 0 {
          if oldValues[0] != shard.values[0] {
            if config.crossKeysErr {
              return Refused(true, CrossKeys);
            }
          }
        }
        if |shard.recs| > 0 && oldShardID != shard.recs[0].logical {
          return Refused(true, CrossShard);
        }
      }
      return Accepted;
    }
  }
}
