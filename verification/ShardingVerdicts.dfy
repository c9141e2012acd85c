/** Where requests go, read off their sub-commands. */
module ShardingVerdicts {
  import opened Seqs
  import opened ShardMaps
  import opened ShardingSpec
  import opened ShardingProofs

  /** A bind of the shard key that has a value behind it; the first sub-command is not looked at. */
  predicate BindAt(parts: seq<Part>, k: int)
  {
    1 <= k && k + 1 < |parts| && parts[k].kind == KeyBind
  }

  /** The positions of all such binds below n, in order. */
  ghost predicate Positions(parts: seq<Part>, n: int, ks: seq<int>)
  {
    && (forall j :: 0 <= j < |ks| ==> BindAt(parts, ks[j]) && ks[j] < n)
    && (forall i, j :: 0 <= i < j < |ks| ==> ks[i] < ks[j])
    && (forall k :: BindAt(parts, k) && k < n ==> k in ks)
  }

  /** The payloads right behind these positions. */
  function Payloads(parts: seq<Part>, ks: seq<int>): seq<string>
    requires forall j :: 0 <= j < |ks| ==> BindAt(parts, ks[j])
  {
    seq(|ks|, j requires 0 <= j < |ks| => assert BindAt(parts, ks[j]); parts[ks[j] + 1].payload)
  }

  ghost predicate NoShardKeyBelow(parts: seq<Part>, n: int)
  {
    forall i :: 1 <= i < n && i < |parts| ==> !parts[i].kind.ShardKey?
  }

  lemma NextPosition(parts: seq<Part>, i: int, ks: seq<int>)
    requires 1 <= i < |parts| && Positions(parts, i, ks)
    ensures BindAt(parts, i) ==>
              Positions(parts, i + 1, ks + [i]) && Payloads(parts, ks + [i]) == Payloads(parts, ks) + [parts[i + 1].payload]
    ensures !BindAt(parts, i) ==> Positions(parts, i + 1, ks)
  {
  }

  /** What the walk has gathered on its way: the values behind the binds it passed. */
  ghost predicate Gathered(parts: seq<Part>, i: int, ks: seq<int>, s: Info, autodisc: bool)
  {
    Positions(parts, i, ks) && s.values == Payloads(parts, ks) && s.recs == [] && s.session == UNSET && (autodisc <==> ks != [])
  }

  /** Without a shard-key command, the walk ends with the values behind all binds, and their shards. */
  lemma {:induction false} WalkFindsBinds(c: Config, m: Maps, sqlhash: int, parts: seq<Part>, i: nat, s: Info, autodisc: bool, ks: seq<int>)
    returns (all: seq<int>)
    requires m.table != [] && 1 <= i <= |parts| && NoShardKeyBelow(parts, |parts|) && Gathered(parts, i, ks, s, autodisc)
    ensures Positions(parts, |parts|, all)
    ensures var w := Walk(c, m, sqlhash, UNSET, parts, i, s, autodisc);
            && w.verdict == Accepted && w.shard.session == UNSET
            && w.shard.values == ValuesFor(c, Payloads(parts, all)) && (all == [] ==> w.shard.recs == [])
    decreases |parts| - i
  {
    if i == |parts| {
      all := ks;
    } else {
      NextPosition(parts, i, ks);
      if BindAt(parts, i) {
        var s' := if autodisc then s else Info([], [], UNSET, 0, 0);
        all := WalkFindsBinds(c, m, sqlhash, parts, i + 1, s'.(values := s'.values + [parts[i + 1].payload]), true, ks + [i]);
      } else {
        all := WalkFindsBinds(c, m, sqlhash, parts, i + 1, s, autodisc, ks);
      }
    }
  }

  /** With a shard-key command, the first one's values replace what was gathered. */
  lemma {:induction false} WalkFindsKey(c: Config, m: Maps, sqlhash: int, parts: seq<Part>, i: nat, s: Info, autodisc: bool, x: nat)
    requires m.table != [] && 1 <= i <= x < |parts| && NoShardKeyBelow(parts, x) && s.session == UNSET
    requires parts[x].kind.ShardKey?
    ensures var w := Walk(c, m, sqlhash, UNSET, parts, i, s, autodisc);
            var key := parts[x].kind;
            && (key.named ==> w.verdict == Accepted && w.shard.session == UNSET && w.shard.values == ValuesFor(c, key.vals))
            && (!key.named && !Single(c) ==> w.verdict == Refused(false, NoShardKey))
    decreases x - i
  {
    if i < x {
      if parts[i].kind == KeyBind {
        var s' := if autodisc then s else Info([], [], UNSET, 0, 0);
        WalkFindsKey(c, m, sqlhash, parts, i + 1, s'.(values := s'.values + [parts[i + 1].payload]), true, x);
      } else {
        WalkFindsKey(c, m, sqlhash, parts, i + 1, s, autodisc, x);
      }
    }
  }

  /** With a shard set, the first key of either kind is refused, and without keys nothing happens. */
  lemma {:induction false} WalkWithShardSet(c: Config, m: Maps, sqlhash: int, session: int, parts: seq<Part>, i: nat, s: Info)
    requires m.table != [] && i <= |parts| && s.session != UNSET
    ensures var w := Walk(c, m, sqlhash, session, parts, i, s, false);
            && w.shard == s
            && (w.verdict == Accepted <==> forall k :: i <= k < |parts| ==> parts[k].kind == Plain)
            && (w.verdict != Accepted ==> w.verdict in {Refused(true, AutodiscoverWhileSet), Refused(true, BothApis)})
    decreases |parts| - i
  {
    if i < |parts| && parts[i].kind == Plain {
      WalkWithShardSet(c, m, sqlhash, session, parts, i + 1, s);
    }
  }

  /** No shard is set and the binds with values are exactly at ks, or the first shard-key command is at x. */
  lemma SeenByBinds(c: Config, m: Maps, st: State, r: Request) returns (ks: seq<int>)
    requires m.table != [] && r.parts != [] && st.shard.session == UNSET && NoShardKeyBelow(r.parts, |r.parts|)
    ensures Positions(r.parts, |r.parts|, ks)
    ensures !Single(c) ==>
              Seen(c, m, st, r).verdict == Accepted && Seen(c, m, st, r).shard.values == Payloads(r.parts, ks)
  {
    var o := Opened(st);
    ks := WalkFindsBinds(c, m, r.sqlhash, r.parts, 1, o.shard, false, []);
  }

  lemma SeenByKey(c: Config, m: Maps, st: State, r: Request, x: nat)
    requires m.table != [] && st.shard.session == UNSET && !Single(c)
    requires 1 <= x < |r.parts| && NoShardKeyBelow(r.parts, x) && r.parts[x].kind.ShardKey? && r.parts[x].kind.named
    ensures Seen(c, m, st, r).verdict == Accepted && Seen(c, m, st, r).shard.values == r.parts[x].kind.vals
  {
    WalkFindsKey(c, m, r.sqlhash, r.parts, 1, Opened(st).shard, false, x);
  }

  /** The verdict on a request with one key, from that key's record and the session alone. */
  function OneKeyVerdict(c: Config, rec: Rec, v: string, st: State, isRead: bool): Verdict
  {
    if rec.flags.badLogical then Refused(true, NoShardKey)
    else if isRead then (if rec.flags.readDown then Refused(true, MarkdownRead) else Accepted)
    else if rec.flags.writeDown then Refused(true, MarkdownWrite)
    else if !st.inTxn then Accepted
    else if c.crossKeysErr && st.shard.values != [] && st.shard.values[0] != v then Refused(true, CrossKeys)
    else if rec.logical != st.shard.shardID then Refused(true, CrossShard)
    else Accepted
  }

  lemma OneKeyRoutes(c: Config, m: Maps, st: State, r: Request, v: string)
    requires ByMap(c, m) && st.shard.session == UNSET
    requires Seen(c, m, st, r).verdict == Accepted && Seen(c, m, st, r).shard.values == [v]
    ensures var p := Preprocessed(c, m, st, r);
            && p.verdict == OneKeyVerdict(c, Lookup(m, v), v, st, r.isRead)
            && p.state.shard.shardID == Lookup(m, v).logical && p.state.shard.values == [v]
  {
    KeysHaveRecords(c, m, st, r);
    LookedUp(m, c.shards, v);
  }

  /** By the map, a request with one bind of the key, at k, goes where the value behind it belongs. */
  lemma BindRoutes(c: Config, m: Maps, st: State, r: Request, k: int)
    requires ByMap(c, m) && st.shard.session == UNSET && NoShardKeyBelow(r.parts, |r.parts|)
    requires BindAt(r.parts, k) && forall j :: BindAt(r.parts, j) ==> j == k
    ensures var v := r.parts[k + 1].payload;
            var p := Preprocessed(c, m, st, r);
            p.verdict == OneKeyVerdict(c, Lookup(m, v), v, st, r.isRead) && p.state.shard.shardID == Lookup(m, v).logical
  {
    var ks := SeenByBinds(c, m, st, r);
    assert k in ks && ks[0] == k && ks[|ks| - 1] == k;
    assert ks == [k];
    assert Payloads(r.parts, ks) == [r.parts[k + 1].payload];
    OneKeyRoutes(c, m, st, r, r.parts[k + 1].payload);
  }

  /** And one whose first shard-key command gives one value goes where that belongs. */
  lemma KeyRoutes(c: Config, m: Maps, st: State, r: Request, x: nat, v: string)
    requires ByMap(c, m) && st.shard.session == UNSET
    requires 1 <= x < |r.parts| && NoShardKeyBelow(r.parts, x) && r.parts[x].kind == ShardKey(true, [v])
    ensures var p := Preprocessed(c, m, st, r);
            p.verdict == OneKeyVerdict(c, Lookup(m, v), v, st, r.isRead) && p.state.shard.shardID == Lookup(m, v).logical
  {
    SeenByKey(c, m, st, r, x);
    OneKeyRoutes(c, m, st, r, v);
  }

  /** Several keys are refused, with a hangup exactly when the first one's bucket is flagged. */
  lemma ManyKeysAreRefused(c: Config, m: Maps, st: State, r: Request)
    requires ByMap(c, m) && Seen(c, m, st, r).verdict == Accepted && |Seen(c, m, st, r).shard.values| > 1
    ensures var v := Seen(c, m, st, r).shard.values[0];
            Preprocessed(c, m, st, r).verdict == Refused(Lookup(m, v).flags.badLogical, NoShardKey)
  {
    KeysHaveRecords(c, m, st, r);
    LookedUp(m, c.shards, Seen(c, m, st, r).shard.values[0]);
  }

  /** Without any key: refused when no shard is set, and by the set shard otherwise. */
  lemma NoKeyRoutes(c: Config, m: Maps, st: State, r: Request)
    requires ByMap(c, m) && r.parts != [] && forall k :: 1 <= k < |r.parts| ==> r.parts[k].kind == Plain
    ensures var p := Preprocessed(c, m, st, r);
            && p.verdict == (if st.shard.session == UNSET then Refused(false, NoShardKey) else Accepted)
            && p.state.shard.shardID == st.shard.shardID
  {
    if st.shard.session == UNSET {
      var ks := SeenByBinds(c, m, st, r);
      assert ks != [] ==> BindAt(r.parts, ks[0]);
      NoKeyWalk(c, m, st, r);
    } else {
      WalkWithShardSet(c, m, r.sqlhash, Opened(st).prev.session, r.parts, 1, Opened(st).shard);
    }
  }

  lemma NoKeyWalk(c: Config, m: Maps, st: State, r: Request)
    requires m.table != [] && r.parts != [] && forall k :: 1 <= k < |r.parts| ==> r.parts[k].kind == Plain
    ensures Walk(c, m, r.sqlhash, Opened(st).prev.session, r.parts, 1, Opened(st).shard, false)
         == Checked(Opened(st).shard, Accepted)
  {
    PlainWalk(c, m, r.sqlhash, Opened(st).prev.session, r.parts, 1, Opened(st).shard);
  }

  lemma {:induction false} PlainWalk(c: Config, m: Maps, sqlhash: int, session: int, parts: seq<Part>, i: nat, s: Info)
    requires m.table != [] && i <= |parts| && forall k :: i <= k < |parts| ==> parts[k].kind == Plain
    ensures Walk(c, m, sqlhash, session, parts, i, s, false) == Checked(s, Accepted)
    decreases |parts| - i
  {
    if i < |parts| {
      PlainWalk(c, m, sqlhash, session, parts, i + 1, s);
    }
  }

  /** With a shard set, any key is refused with a hangup. */
  lemma KeysWithShardSet(c: Config, m: Maps, st: State, r: Request)
    requires m.table != [] && r.parts != [] && st.shard.session != UNSET
    requires exists k :: 1 <= k < |r.parts| && r.parts[k].kind != Plain
    ensures Preprocessed(c, m, st, r).verdict in {Refused(true, AutodiscoverWhileSet), Refused(true, BothApis)}
  {
    WalkWithShardSet(c, m, r.sqlhash, Opened(st).prev.session, r.parts, 1, Opened(st).shard);
  }

  /** A set shard: accepted within range unless it would move a transaction; remembered even then; else nothing changes. */
  lemma SetShardTells(c: Config, m: Maps, st: State, v: int)
    requires ByMap(c, m)
    ensures var (t, ok) := ShardSet(c, st, Some(v));
            && (ok <==> -1 <= v < c.shards && (st.inTxn && st.worker.Some? ==> st.worker.value == v))
            && t.shard.session == (if -1 <= v < c.shards then v else st.shard.session)
            && t.shard.shardID == (if ok then v else st.shard.shardID)
            && t == st.(shard := t.shard) && t.shard == st.shard.(session := t.shard.session, shardID := t.shard.shardID)
    ensures ShardSet(c, st, None) == (st, false)
  {
  }

  /**
   Under the whitelist or without a map: a null key goes to shard 0, a listed key where its entry says if that
   shard exists, others by the map.
   */
  lemma SoftKeyTells(c: Config, m: Maps, st: State, r: Request)
    requires m.table != [] && Single(c) && Seen(c, m, st, r).verdict == Accepted && Seen(c, m, st, r).shard.values != []
    ensures var s := Seen(c, m, st, r).shard;
            var v := s.values[0];
            && s.recs != []
            && (c.whitelist && v == "" ==> s.shardID == 0)
            && (!(c.whitelist && v == "") && m.listed(v).Some? && 0 <= m.listed(v).value.logical < c.shards ==>
                  s.shardID == m.listed(v).value.logical)
            && (!(c.whitelist && v == "") && (m.listed(v).None? || !(0 <= m.listed(v).value.logical < c.shards)) ==>
                  s.shardID == m.table[m.hash(v) % |m.table|].logical)
  {
    KeysHaveRecords(c, m, st, r);
  }

  /**
   Under the whitelist or without a map, a request without key is meant for shard 0, and a write in a transaction
   elsewhere is refused. Otherwise it is accepted, but for the shard the session happens to stand on: so it goes to
   shard 0 exactly when the session stands there.
   */
  lemma SoftNoKeyRoutes(c: Config, m: Maps, st: State, r: Request)
    requires m.table != [] && Single(c) && r.parts != [] && st.shard.session == UNSET
    requires forall k :: 1 <= k < |r.parts| ==> r.parts[k].kind == Plain
    ensures var p := Preprocessed(c, m, st, r);
            && p.verdict == (if st.inTxn && !r.isRead && st.shard.shardID != 0 then Refused(true, CrossShard) else Accepted)
            && p.state.shard.shardID == st.shard.shardID
  {
    NoKeyWalk(c, m, st, r);
  }

  /** A whitelisted key on shard 1, then a request without key: it goes to shard 1. */
  lemma KeylessFollowsKeyed(m: Maps)
    requires m.table != [] && m.listed("k") == Some(Rec(0, 1, PLAIN))
    ensures var c := Config(true, true, true, 2, false);
            var keyed := Preprocessed(c, m, START, KeyRequest("k", true));
            var next := Preprocessed(c, m, Stepped(c, m, START, Ask(KeyRequest("k", true), Done)), NO_KEY);
            && keyed.verdict == Accepted && keyed.state.shard.shardID == 1
            && next.verdict == Accepted && next.state.shard.shardID == 1
  {
    var c := Config(true, true, true, 2, false);
    var keyed := Preprocessed(c, m, START, KeyRequest("k", true));
    assert keyed.verdict == Accepted && keyed.state.shard.shardID == 1 && keyed.state.shard.session == UNSET;
    SoftNoKeyRoutes(c, m, Stepped(c, m, START, Ask(KeyRequest("k", true), Done)), NO_KEY);
  }
}
