/**
 * `TrackerList`: the live trackers keyed by persistent id, with the id
 * counter. The value-level part describes the dictionary as a Table (keys in
 * insertion order, each tracker's state, the counter) and gives the two
 * operations as functions on it; the lemmas state what they guarantee. The
 * class below holds real Tracker objects and is proved against these functions.
 */
module TrackerTable {
  import opened Wrappers
  import opened Geometry
  import opened Correlation
  import opened FaceTracker

  /** Quality below which a tracker has lost its target. */
  const MinQuality: real := 7.0

  /** Overlap ratio above which a tracker is probed against a detection. */
  const MinOverlap: real := 0.5

  /** No key is listed twice (stated on the last element, so that no quantifier is needed). */
  predicate NoDup(s: seq<int>)
    decreases |s|
  {
    |s| == 0 || (s[|s| - 1] !in s[..|s| - 1] && NoDup(s[..|s| - 1]))
  }

  /** No key is listed twice, stated on pairs of positions. */
  lemma {:induction false} NoDupPairwise(s: seq<int>)
    ensures NoDup(s) <==> forall a, b | 0 <= a < b < |s| :: s[a] != s[b]
    decreases |s|
  {
    if |s| > 0 {
      var init := s[..|s| - 1];
      NoDupPairwise(init);
      if (forall a, b | 0 <= a < b < |s| :: s[a] != s[b]) {
        assert (forall a, b | 0 <= a < b < |init| :: init[a] != init[b]);
        assert s[|s| - 1] !in init by {
          forall a | 0 <= a < |init| ensures init[a] != s[|s| - 1] {
            assert init[a] == s[a];
          }
        }
      }
      if NoDup(s) {
        forall a, b | 0 <= a < b < |s| ensures s[a] != s[b] {
          assert s[a] == init[a];
          if b < |s| - 1 { assert s[b] == init[b]; }
          else { assert s[a] in init; }
        }
      }
    }
  }

  /** A dictionary id -> tracker state with its keys in insertion order, and the counter `i`. */
  datatype Table = Table(order: seq<int>, states: map<int, TrackerState>, next: int)

  /** Keys listed once each, exactly the dictionary's keys, all allocated already. */
  ghost predicate TableOk(tb: Table)
  {
    && NoDup(tb.order)
    && (forall k :: k in tb.order <==> k in tb.states)
    && (forall k | k in tb.states :: 0 <= k < tb.next)
    && 0 <= tb.next
  }

  /** The elements of `s` that lie in `keys`, in their order in `s`. */
  function Keep(s: seq<int>, keys: set<int>): (r: seq<int>)
    ensures forall k {:trigger k in r} :: k in r <==> k in s && k in keys
    decreases |s|
  {
    if |s| == 0 then [] else (if s[0] in keys then [s[0]] else []) + Keep(s[1..], keys)
  }

  /** `s` without the key `k`: what `del` does to the dictionary's key order. */
  function Without(s: seq<int>, k: int): (r: seq<int>)
    ensures forall x {:trigger x in r} :: x in r <==> x in s && x != k
    decreases |s|
  {
    if |s| == 0 then [] else (if s[0] == k then [] else [s[0]]) + Without(s[1..], k)
  }

  /** Every prefix of a list without repeats is one, and misses the element after it. */
  lemma NoDupPrefix(s: seq<int>, n: nat)
    requires NoDup(s) && n <= |s|
    ensures NoDup(s[..n])
    ensures n < |s| ==> s[n] !in s[..n]
  {
    NoDupPairwise(s);
    var t := s[..n];
    assert (forall a, b | 0 <= a < b < |t| :: t[a] != t[b]) by {
      forall a, b | 0 <= a < b < |t| ensures t[a] != t[b] { assert t[a] == s[a] && t[b] == s[b]; }
    }
    NoDupPairwise(t);
    if n < |s| {
      forall j | 0 <= j < n ensures t[j] != s[n] { assert t[j] == s[j]; }
    }
  }

  lemma KeepNoDup(s: seq<int>, keys: set<int>)
    requires NoDup(s)
    ensures NoDup(Keep(s, keys))
  {
    NoDupPairwise(s);
    KeepPairwise(s, keys);
    NoDupPairwise(Keep(s, keys));
  }

  lemma {:induction false} KeepPairwise(s: seq<int>, keys: set<int>)
    requires forall a, b | 0 <= a < b < |s| :: s[a] != s[b]
    ensures forall a, b | 0 <= a < b < |Keep(s, keys)| :: Keep(s, keys)[a] != Keep(s, keys)[b]
    decreases |s|
  {
    if |s| > 0 {
      KeepPairwise(s[1..], keys);
      var r := Keep(s, keys);
      var tail := Keep(s[1..], keys);
      assert s[0] !in s[1..] by {
        forall j | 0 <= j < |s| - 1 ensures s[1..][j] != s[0] { assert s[1..][j] == s[j + 1]; }
      }
      assert s[0] !in tail;
      if s[0] in keys {
        assert r == [s[0]] + tail;
        forall a, b | 0 <= a < b < |r| ensures r[a] != r[b] {
          if a > 0 { assert r[a] == tail[a - 1] && r[b] == tail[b - 1]; }
          else { assert r[b] in tail; }
        }
      } else {
        assert r == tail;
      }
    }
  }

  lemma {:induction false} KeepAll(s: seq<int>, keys: set<int>)
    requires forall x | x in s :: x in keys
    ensures Keep(s, keys) == s
    decreases |s|
  {
    if |s| > 0 {
      var head := s[0];
      assert head in s;
      KeepAll(s[1..], keys);
      assert s == [head] + s[1..];
    }
  }

  lemma {:induction false} WithoutKeep(s: seq<int>, keys: set<int>, k: int)
    ensures Without(Keep(s, keys), k) == Keep(s, keys - {k})
    decreases |s|
  {
    if |s| > 0 {
      WithoutKeep(s[1..], keys, k);
      var head := if s[0] in keys then [s[0]] else [];
      assert Keep(s, keys) == head + Keep(s[1..], keys);
      WithoutConcat(head, Keep(s[1..], keys), k);
    }
  }

  lemma WithoutConcat(a: seq<int>, b: seq<int>, k: int)
    requires |a| <= 1
    ensures Without(a + b, k) == Without(a, k) + Without(b, k)
  {
    if |a| == 1 { assert (a + b)[1..] == b; }
    else { assert a + b == b; }
  }

  lemma WithoutNoDup(s: seq<int>, k: int)
    requires NoDup(s)
    ensures NoDup(Without(s, k))
  {
    NoDupPairwise(s);
    WithoutPairwise(s, k);
    NoDupPairwise(Without(s, k));
  }

  lemma {:induction false} WithoutPairwise(s: seq<int>, k: int)
    requires forall a, b | 0 <= a < b < |s| :: s[a] != s[b]
    ensures forall a, b | 0 <= a < b < |Without(s, k)| :: Without(s, k)[a] != Without(s, k)[b]
    decreases |s|
  {
    if |s| > 0 {
      assert (forall a, b | 0 <= a < b < |s[1..]| :: s[1..][a] != s[1..][b]) by {
        forall a, b | 0 <= a < b < |s| - 1 ensures s[1..][a] != s[1..][b] {
          assert s[1..][a] == s[a + 1] && s[1..][b] == s[b + 1];
        }
      }
      WithoutPairwise(s[1..], k);
      var head := if s[0] == k then [] else [s[0]];
      var tail := Without(s[1..], k);
      assert s[0] !in s[1..] by {
        forall j | 0 <= j < |s| - 1 ensures s[1..][j] != s[0] { assert s[1..][j] == s[j + 1]; }
      }
      assert s[0] !in tail;
      var r := head + tail;
      forall a, b | 0 <= a < b < |r| ensures r[a] != r[b] {
        if |head| == 1 && a == 0 { assert r[b] == tail[b - 1]; assert r[b] in tail; }
        else if |head| == 1 { assert r[a] == tail[a - 1] && r[b] == tail[b - 1]; }
        else { assert r[a] == tail[a] && r[b] == tail[b]; }
      }
    }
  }

  // ---------------------------------------------------------------------------
  // TrackerList.update: drop the trackers that are lost or out of frame
  // ---------------------------------------------------------------------------

  /** What the update loop has done after visiting a prefix of the keys: completed or raising, and the dictionary left. */
  datatype Pruned = Pruned(ok: bool, order: seq<int>, states: map<int, TrackerState>)

  /** The tracker survives its update on `frame`: quality at least 7 and still in frame. */
  predicate Survives(p: Primitive, s: TrackerState, frame: Frame)
  {
    var u := UpdateStep(p, s, frame);
    u.1.Some? && !(u.1.value < MinQuality) && InFrame(u.0.t.pos, frame.shape)
  }

  /**
   * One key of the loop of `TrackerList.update`: the tracker is updated, then
   * deleted when its quality is below 7 or it left the frame; a failing
   * update stops the loop with what was done so far.
   */
  function PruneStep(p: Primitive, frame: Frame, prev: Pruned, k: int): (r: Pruned)
    requires k in prev.states
    ensures r.states.Keys <= prev.states.Keys
    ensures forall x {:trigger x in r.states} | x in prev.states && x != k :: x in r.states && r.states[x] == prev.states[x]
  {
    if !prev.ok then prev
    else
      var u := UpdateStep(p, prev.states[k], frame);
      if u.1.None? then Pruned(false, prev.order, prev.states)
      else if u.1.value < MinQuality || !InFrame(u.0.t.pos, frame.shape) then
        Pruned(true, Without(prev.order, k), prev.states - {k})
      else Pruned(true, prev.order, prev.states[k := u.0])
  }

  /** The loop of `TrackerList.update` over the snapshot `ks` of the keys. */
  function PruneFold(p: Primitive, frame: Frame, ks: seq<int>, order: seq<int>, states: map<int, TrackerState>): (r: Pruned)
    requires NoDup(ks) && forall k | k in ks :: k in states
    ensures r.states.Keys <= states.Keys
    ensures forall k {:trigger k in r.states} | k in states && k !in ks :: k in r.states && r.states[k] == states[k]
    decreases |ks|
  {
    if |ks| == 0 then Pruned(true, order, states)
    else PruneStep(p, frame, PruneFold(p, frame, ks[..|ks| - 1], order, states), ks[|ks| - 1])
  }

  /**
   * The update loop completes iff no tracker is stale; when it completes, a
   * tracker is kept iff it survives its update, and every kept tracker holds
   * the state its update produced (trackers outside the snapshot untouched).
   */
  lemma {:induction false} PruneFoldChar(p: Primitive, frame: Frame, ks: seq<int>, order: seq<int>, states: map<int, TrackerState>)
    requires NoDup(ks) && forall k | k in ks :: k in states
    ensures var r := PruneFold(p, frame, ks, order, states);
      && (r.ok <==> forall k | k in ks :: !Stale(states[k], frame))
      && (r.ok ==> forall k :: k in r.states <==> k in states && (k in ks ==> Survives(p, states[k], frame)))
      && (r.ok ==> forall k | k in r.states :: r.states[k] == if k in ks then UpdateStep(p, states[k], frame).0 else states[k])
    decreases |ks|
  {
    if |ks| > 0 {
      var init := ks[..|ks| - 1];
      var k := ks[|ks| - 1];
      assert NoDup(init);
      PruneFoldChar(p, frame, init, order, states);
      var prev := PruneFold(p, frame, init, order, states);
      assert k !in init;
      assert prev.ok ==> prev.states[k] == states[k];
      forall x ensures x in ks <==> x in init || x == k {
        assert ks == init + [k];
      }
      UpdateFailsIffStale(p, states[k], frame);
    }
  }

  /** The loop only deletes keys, so the key order left is the old order restricted to the keys left. */
  lemma {:induction false} PruneFoldOrder(p: Primitive, frame: Frame, ks: seq<int>, order: seq<int>, states: map<int, TrackerState>)
    requires NoDup(ks) && forall k | k in ks :: k in states
    requires forall k | k in order :: k in states
    ensures var r := PruneFold(p, frame, ks, order, states);
      r.order == Keep(order, r.states.Keys)
    decreases |ks|
  {
    if |ks| == 0 {
      KeepAll(order, states.Keys);
    } else {
      var init := ks[..|ks| - 1];
      assert NoDup(init);
      PruneFoldOrder(p, frame, init, order, states);
      var prev := PruneFold(p, frame, init, order, states);
      var k := ks[|ks| - 1];
      assert k !in init;
      if prev.ok {
        assert k in prev.states;
        var u := UpdateStep(p, prev.states[k], frame);
        if u.1.Some? && (u.1.value < MinQuality || !InFrame(u.0.t.pos, frame.shape)) {
          WithoutKeep(order, prev.states.Keys, k);
        } else if u.1.Some? {
          assert PruneStep(p, frame, prev, k).states.Keys == prev.states.Keys;
        }
      }
    }
  }

  /** Once the loop has raised, the remaining keys change nothing. */
  lemma {:induction false} PruneFoldStuck(p: Primitive, frame: Frame, ks: seq<int>, order: seq<int>, states: map<int, TrackerState>, n: nat)
    requires NoDup(ks) && forall k | k in ks :: k in states
    requires n <= |ks| && NoDup(ks[..n])
    requires !PruneFold(p, frame, ks[..n], order, states).ok
    ensures PruneFold(p, frame, ks, order, states) == PruneFold(p, frame, ks[..n], order, states)
    decreases |ks|
  {
    if n < |ks| {
      var init := ks[..|ks| - 1];
      assert init[..n] == ks[..n];
      assert NoDup(init);
      PruneFoldStuck(p, frame, init, order, states, n);
    } else {
      assert ks[..n] == ks;
    }
  }

  /** One more key of the update loop, from a completed prefix. */
  lemma PruneFoldNext(p: Primitive, frame: Frame, ks: seq<int>, order: seq<int>, states: map<int, TrackerState>, n: nat)
    requires n < |ks| && NoDup(ks[..n]) && NoDup(ks[..n + 1]) && forall k | k in ks :: k in states
    requires PruneFold(p, frame, ks[..n], order, states).ok
    ensures var prev := PruneFold(p, frame, ks[..n], order, states);
      && ks[n] in prev.states && prev.states[ks[n]] == states[ks[n]]
      && PruneFold(p, frame, ks[..n + 1], order, states) == PruneStep(p, frame, prev, ks[n])
  {
    var a := ks[..n + 1];
    assert a[..|a| - 1] == ks[..n] && a[|a| - 1] == ks[n];
    assert ks[n] in ks;
    assert NoDup(a);
  }

  /** Everything the update loop needs to take one more key of the snapshot. */
  lemma PruneFoldAdvance(p: Primitive, frame: Frame, ks: seq<int>, states: map<int, TrackerState>, n: nat)
    requires NoDup(ks) && (forall k | k in ks :: k in states) && n < |ks|
    ensures NoDup(ks[..n]) && NoDup(ks[..n + 1])
    ensures var prev := PruneFold(p, frame, ks[..n], ks, states);
      var next := PruneFold(p, frame, ks[..n + 1], ks, states);
      && ks[n] in prev.states
      && next == PruneStep(p, frame, prev, ks[n])
      && (!next.ok ==> PruneFold(p, frame, ks, ks, states) == next)
  {
    NoDupPrefix(ks, n);
    NoDupPrefix(ks, n + 1);
    if PruneFold(p, frame, ks[..n], ks, states).ok {
      PruneFoldNext(p, frame, ks, ks, states, n);
    } else {
      assert ks[..n + 1][..n] == ks[..n];
    }
    if !PruneFold(p, frame, ks[..n + 1], ks, states).ok {
      PruneFoldStuck(p, frame, ks, ks, states, n + 1);
    }
  }

  /** `TrackerList.update` on a table: the new table, and whether the loop completed. */
  function Propagate(p: Primitive, frame: Frame, tb: Table): (Table, bool)
    requires TableOk(tb)
  {
    var r := PruneFold(p, frame, tb.order, tb.order, tb.states);
    (Table(r.order, r.states, tb.next), r.ok)
  }

  /**
   * The update keeps a tracker iff its update quality is at least 7 and it is
   * still in frame; it adds no id, keeps the counter and the relative key
   * order, and fails (leaving a table that is still well formed) exactly when
   * some tracker's memoised value is missing.
   */
  lemma PropagateChar(p: Primitive, frame: Frame, tb: Table)
    requires TableOk(tb)
    ensures var (r, ok) := Propagate(p, frame, tb);
      && TableOk(r)
      && r.next == tb.next
      && r.states.Keys <= tb.states.Keys
      && r.order == Keep(tb.order, r.states.Keys)
      && (ok <==> forall k | k in tb.states :: !Stale(tb.states[k], frame))
      && (ok ==> forall k :: k in r.states <==> k in tb.states && Survives(p, tb.states[k], frame))
      && (ok ==> forall k | k in r.states :: r.states[k] == UpdateStep(p, tb.states[k], frame).0)
  {
    PruneFoldChar(p, frame, tb.order, tb.order, tb.states);
    PruneFoldOrder(p, frame, tb.order, tb.order, tb.states);
    var r := PruneFold(p, frame, tb.order, tb.order, tb.states);
    KeepNoDup(tb.order, r.states.Keys);
  }

  // ---------------------------------------------------------------------------
  // TrackerList.ingest_detection: greedy matching of detections to trackers
  // ---------------------------------------------------------------------------

  /** `np.argmax`: the first index that holds the maximum. */
  function FirstArgmax(s: seq<real>): (r: nat)
    requires |s| > 0
    ensures r < |s|
    decreases |s|
  {
    if |s| == 1 then 0
    else
      var m := FirstArgmax(s[..|s| - 1]);
      if s[|s| - 1] > s[m] then |s| - 1 else m
  }

  /** The index found holds the maximum, and every earlier entry is strictly smaller. */
  lemma {:induction false} FirstArgmaxIsFirstMax(s: seq<real>)
    requires |s| > 0
    ensures var r := FirstArgmax(s);
      && (forall j | 0 <= j < |s| :: s[j] <= s[r])
      && (forall j | 0 <= j < r :: s[j] < s[r])
    decreases |s|
  {
    if |s| > 1 {
      var init := s[..|s| - 1];
      FirstArgmaxIsFirstMax(init);
      var m := FirstArgmax(init);
      assert forall j | 0 <= j < |init| :: s[j] == init[j];
    }
  }

  /** `am is not None and rmscore[am] > 7`: the position claimed, if any, given the candidates' scores. */
  function Claim(scores: seq<real>): (r: Option<nat>)
    ensures r.Some? ==> r.value < |scores|
  {
    if |scores| > 0 && scores[FirstArgmax(scores)] > MinQuality then Some(FirstArgmax(scores)) else None
  }

  /**
   * A candidate is claimed iff some score exceeds 7, and then it is the first
   * candidate of maximal score.
   */
  lemma ClaimRule(scores: seq<real>)
    ensures Claim(scores).None? <==> forall j | 0 <= j < |scores| :: scores[j] <= MinQuality
    ensures Claim(scores).Some? ==> var am := Claim(scores).value;
      && scores[am] > MinQuality
      && (forall j | 0 <= j < |scores| :: scores[j] <= scores[am])
      && (forall j | 0 <= j < am :: scores[j] < scores[am])
  {
    if |scores| > 0 {
      FirstArgmaxIsFirstMax(scores);
    }
  }

  /** The score of one candidate for box `bb`: a probe when the overlap ratio exceeds 0.5, else 0. */
  function ScoreOf(p: Primitive, frame: Frame, bb: Box, s: TrackerState): real
  {
    if Ratio(s.t.pos, bb) > MinOverlap then ProbeStep(p, s, frame, bb).1 else 0.0
  }

  /** The candidate's state after it is scored for `bb`: probed (so now tracking `bb`) when the ratio exceeds 0.5. */
  function Rebound(p: Primitive, frame: Frame, bb: Box, s: TrackerState): TrackerState
  {
    if Ratio(s.t.pos, bb) > MinOverlap then ProbeStep(p, s, frame, bb).0 else s
  }

  /** The scores of one box against the candidates, and the candidates' states after their probes. */
  datatype Scored = Scored(scores: seq<real>, states: map<int, TrackerState>)

  /**
   * The list comprehension `rmscore`: candidates are scored in pool order,
   * and each probe rebinds that tracker before the next one is scored.
   */
  function ScoreFold(p: Primitive, frame: Frame, bb: Box, pool: seq<int>, states: map<int, TrackerState>): (r: Scored)
    requires forall k | k in pool :: k in states
    ensures |r.scores| == |pool| && r.states.Keys == states.Keys
    decreases |pool|
  {
    if |pool| == 0 then Scored([], states)
    else
      var prev := ScoreFold(p, frame, bb, pool[..|pool| - 1], states);
      var k := pool[|pool| - 1];
      var s := prev.states[k];
      Scored(prev.scores + [ScoreOf(p, frame, bb, s)], prev.states[k := Rebound(p, frame, bb, s)])
  }

  /**
   * With each candidate listed once, exactly the candidates whose ratio
   * exceeds 0.5 end up rebound to the box; every other state is untouched.
   */
  lemma {:induction false} ScoreFoldStates(p: Primitive, frame: Frame, bb: Box, pool: seq<int>, states: map<int, TrackerState>)
    requires NoDup(pool) && forall k | k in pool :: k in states
    ensures var r := ScoreFold(p, frame, bb, pool, states);
      forall k | k in states :: r.states[k] == if k in pool then Rebound(p, frame, bb, states[k]) else states[k]
    decreases |pool|
  {
    if |pool| > 0 {
      var init := pool[..|pool| - 1];
      var k := pool[|pool| - 1];
      assert NoDup(init) && k !in init;
      ScoreFoldStates(p, frame, bb, init, states);
      assert pool == init + [k];
      var prev := ScoreFold(p, frame, bb, init, states);
      assert prev.states[k] == states[k];
    }
  }

  /** With each candidate listed once, every score is that candidate's own score against its state before the pass over this box. */
  lemma {:induction false} ScoreFoldScores(p: Primitive, frame: Frame, bb: Box, pool: seq<int>, states: map<int, TrackerState>)
    requires NoDup(pool) && forall k | k in pool :: k in states
    ensures var r := ScoreFold(p, frame, bb, pool, states);
      forall j | 0 <= j < |pool| :: r.scores[j] == ScoreOf(p, frame, bb, states[pool[j]])
    decreases |pool|
  {
    if |pool| > 0 {
      var init := pool[..|pool| - 1];
      var k := pool[|pool| - 1];
      assert NoDup(init) && k !in init;
      ScoreFoldScores(p, frame, bb, init, states);
      ScoreFoldStates(p, frame, bb, init, states);
      var prev := ScoreFold(p, frame, bb, init, states);
      var r := ScoreFold(p, frame, bb, pool, states);
      assert prev.states[k] == states[k];
      forall j | 0 <= j < |init| ensures r.scores[j] == ScoreOf(p, frame, bb, states[pool[j]]) {
        assert r.scores[j] == prev.scores[j] && pool[j] == init[j];
      }
    }
  }

  /** As the ratio never exceeds 0.5, the comprehension scores every candidate 0 and probes none. */
  lemma {:induction false} ScoreFoldAllZero(p: Primitive, frame: Frame, bb: Box, pool: seq<int>, states: map<int, TrackerState>)
    requires forall k | k in pool :: k in states
    ensures var r := ScoreFold(p, frame, bb, pool, states);
      (forall j | 0 <= j < |pool| :: r.scores[j] == 0.0) && r.states == states
    decreases |pool|
  {
    if |pool| > 0 {
      ScoreFoldAllZero(p, frame, bb, pool[..|pool| - 1], states);
      var k := pool[|pool| - 1];
      assert k in pool;
      RatioNeverAboveHalf(states[k].t.pos, bb);
    }
  }

  /**
   * The state of the matching pass: ids still unclaimed (`to_remove`), the
   * states of the old trackers, the keys of `to_add` in insertion order (one
   * per box processed), and the counter.
   */
  datatype Pass = Pass(pool: seq<int>, states: map<int, TrackerState>, added: seq<int>, next: int)

  /**
   * One iteration of the loop over the boxes: score the pool; claim the id
   * `Claim` picks (removing it from the pool), otherwise allocate the
   * counter's id.
   */
  function IngestStep(p: Primitive, frame: Frame, st: Pass, bb: Box): Pass
    requires forall k | k in st.pool :: k in st.states
  {
    var sc := ScoreFold(p, frame, bb, st.pool, st.states);
    var c := Claim(sc.scores);
    if c.Some? then
      Pass(st.pool[..c.value] + st.pool[c.value + 1..], sc.states, st.added + [st.pool[c.value]], st.next)
    else
      Pass(st.pool, sc.states, st.added + [st.next], st.next + 1)
  }

  /** The loop over the boxes, as a fold over their prefix. */
  function IngestFold(p: Primitive, frame: Frame, boxes: seq<Box>, init: Pass): (r: Pass)
    requires forall k | k in init.pool :: k in init.states
    ensures forall k | k in r.pool :: k in r.states
    ensures r.states.Keys == init.states.Keys
    ensures |r.added| == |init.added| + |boxes|
    decreases |boxes|
  {
    if |boxes| == 0 then init
    else
      var prev := IngestFold(p, frame, boxes[..|boxes| - 1], init);
      IngestStep(p, frame, prev, boxes[|boxes| - 1])
  }

  /** The fresh trackers of `to_add`: key `keys[j]` bound to `boxes[j]`. */
  function SpawnAll(frame: Frame, keys: seq<int>, boxes: seq<Box>): map<int, TrackerState>
    requires |keys| == |boxes|
    decreases |keys|
  {
    if |keys| == 0 then map[]
    else SpawnAll(frame, keys[..|keys| - 1], boxes[..|boxes| - 1])[keys[|keys| - 1] := Spawned(frame, boxes[|boxes| - 1])]
  }

  /** The keys of `to_add` are the keys listed. */
  lemma {:induction false} SpawnAllKeys(frame: Frame, keys: seq<int>, boxes: seq<Box>)
    requires |keys| == |boxes|
    ensures forall k :: k in SpawnAll(frame, keys, boxes) <==> k in keys
    decreases |keys|
  {
    if |keys| > 0 {
      var init := keys[..|keys| - 1];
      SpawnAllKeys(frame, init, boxes[..|boxes| - 1]);
      assert keys == init + [keys[|keys| - 1]];
    }
  }

  /** With the keys listed once each, key `keys[j]` holds the tracker started on `boxes[j]`. */
  lemma {:induction false} SpawnAllAt(frame: Frame, keys: seq<int>, boxes: seq<Box>)
    requires |keys| == |boxes| && NoDup(keys)
    ensures var m := SpawnAll(frame, keys, boxes);
      forall j | 0 <= j < |keys| :: keys[j] in m && m[keys[j]] == Spawned(frame, boxes[j])
    decreases |keys|
  {
    if |keys| > 0 {
      var init := keys[..|keys| - 1];
      var last := keys[|keys| - 1];
      var front := boxes[..|boxes| - 1];
      assert NoDup(init) && last !in init;
      SpawnAllAt(frame, init, front);
      var m0 := SpawnAll(frame, init, front);
      var m := SpawnAll(frame, keys, boxes);
      assert m == m0[last := Spawned(frame, boxes[|boxes| - 1])];
      forall j | 0 <= j < |init| ensures keys[j] in m && m[keys[j]] == Spawned(frame, boxes[j]) {
        assert keys[j] == init[j] && boxes[j] == front[j];
        assert keys[j] != last;
      }
    }
  }

  /** One more key and box for `to_add`. */
  lemma SpawnAllSnoc(frame: Frame, keys: seq<int>, key: int, boxes: seq<Box>, n: nat)
    requires |keys| == n && n < |boxes|
    ensures SpawnAll(frame, keys + [key], boxes[..n + 1]) == SpawnAll(frame, keys, boxes[..n])[key := Spawned(frame, boxes[n])]
  {
    assert (keys + [key])[..n] == keys;
    assert boxes[..n + 1][..n] == boxes[..n];
  }

  /** The pass at its start: every old id is a candidate, nothing added yet. */
  function StartPass(tb: Table): Pass
  {
    Pass(tb.order, tb.states, [], tb.next)
  }

  /** `TrackerList.ingest_detection` on a table: `self.d = to_add` after the loop. */
  function Ingest(p: Primitive, frame: Frame, boxes: seq<Box>, tb: Table): Table
    requires TableOk(tb)
  {
    var st := IngestFold(p, frame, boxes, StartPass(tb));
    Table(st.added, SpawnAll(frame, st.added, boxes), st.next)
  }

  /**
   * What holds of the pass after `n` boxes: the pool is the old ids not yet
   * claimed, each added key is a claimed old id or an id allocated during
   * the pass, every allocated id was added, and each box either claimed an
   * old id or allocated one.
   */
  ghost predicate PassInv(tb: Table, st: Pass, n: nat)
  {
    && NoDup(st.pool) && NoDup(st.added)
    && |st.added| == n
    && (forall k | k in st.pool :: k in tb.order)
    && (forall k | k in tb.order :: k in st.pool <==> k !in st.added)
    && (forall k | k in st.added :: k in tb.order || tb.next <= k < st.next)
    && (forall k :: tb.next <= k < st.next ==> k in st.added)
    && tb.next <= st.next
    && (st.next - tb.next) + (|tb.order| - |st.pool|) == n
    && st.states.Keys == tb.states.Keys
  }

  lemma NoDupRemoveAt(s: seq<int>, am: nat)
    requires NoDup(s) && am < |s|
    ensures var r := s[..am] + s[am + 1..];
      NoDup(r) && |r| == |s| - 1 && forall x :: x in r <==> x in s && x != s[am]
  {
    NoDupPairwise(s);
    var r := s[..am] + s[am + 1..];
    forall x ensures x in r <==> x in s && x != s[am] {
      if x in r {
        var j :| 0 <= j < |r| && r[j] == x;
        if j < am { assert r[j] == s[j]; } else { assert r[j] == s[j + 1]; }
      }
      if x in s && x != s[am] {
        var j :| 0 <= j < |s| && s[j] == x;
        if j < am { assert r[j] == x; } else { assert r[j - 1] == x; }
      }
    }
    forall a, b | 0 <= a < b < |r| ensures r[a] != r[b] {
      var a' := if a < am then a else a + 1;
      var b' := if b < am then b else b + 1;
      assert r[a] == s[a'] && r[b] == s[b'];
    }
    assert (forall a, b | 0 <= a < b < |r| :: r[a] != r[b]);
    NoDupPairwise(r);
  }

  lemma NoDupAppend(s: seq<int>, x: int)
    requires NoDup(s) && x !in s
    ensures NoDup(s + [x])
  {
    assert (s + [x])[..|s|] == s;
  }

  /** Claiming the old id at position `am` of the pool keeps the pass invariant. */
  lemma ClaimKeepsInv(tb: Table, st: Pass, n: nat, am: nat, r: Pass)
    requires TableOk(tb) && PassInv(tb, st, n) && am < |st.pool|
    requires r.pool == st.pool[..am] + st.pool[am + 1..] && r.states.Keys == st.states.Keys
    requires r.added == st.added + [st.pool[am]] && r.next == st.next
    ensures PassInv(tb, r, n + 1)
  {
    NoDupRemoveAt(st.pool, am);
    assert st.pool[am] in st.pool;
    NoDupAppend(st.added, st.pool[am]);
  }

  /** Allocating the counter's id keeps the pass invariant. */
  lemma SpawnKeepsInv(tb: Table, st: Pass, n: nat, r: Pass)
    requires TableOk(tb) && PassInv(tb, st, n)
    requires r.pool == st.pool && r.states.Keys == st.states.Keys
    requires r.added == st.added + [st.next] && r.next == st.next + 1
    ensures PassInv(tb, r, n + 1)
  {
    assert st.next !in st.added;
    assert st.next !in tb.order;
    NoDupAppend(st.added, st.next);
  }

  /** One box keeps the pass invariant. */
  lemma IngestStepInv(p: Primitive, frame: Frame, tb: Table, st: Pass, n: nat, bb: Box)
    requires TableOk(tb) && PassInv(tb, st, n)
    ensures forall k | k in st.pool :: k in st.states
    ensures PassInv(tb, IngestStep(p, frame, st, bb), n + 1)
  {
    assert forall k | k in st.pool :: k in st.states;
    var sc := ScoreFold(p, frame, bb, st.pool, st.states);
    var c := Claim(sc.scores);
    var r := IngestStep(p, frame, st, bb);
    if c.Some? {
      ClaimKeepsInv(tb, st, n, c.value, r);
    } else {
      SpawnKeepsInv(tb, st, n, r);
    }
  }

  lemma {:induction false} IngestFoldInv(p: Primitive, frame: Frame, boxes: seq<Box>, tb: Table)
    requires TableOk(tb)
    ensures PassInv(tb, IngestFold(p, frame, boxes, StartPass(tb)), |boxes|)
    decreases |boxes|
  {
    if |boxes| > 0 {
      IngestFoldInv(p, frame, boxes[..|boxes| - 1], tb);
      IngestStepInv(p, frame, tb, IngestFold(p, frame, boxes[..|boxes| - 1], StartPass(tb)), |boxes| - 1, boxes[|boxes| - 1]);
    }
  }

  /** What the loop over the boxes needs to take the box `boxes[n]`. */
  lemma IngestAdvance(p: Primitive, frame: Frame, boxes: seq<Box>, tb: Table, n: nat)
    requires TableOk(tb) && n < |boxes|
    ensures var st := IngestFold(p, frame, boxes[..n], StartPass(tb));
      var r := IngestFold(p, frame, boxes[..n + 1], StartPass(tb));
      && (forall k | k in st.pool :: k in st.states)
      && r == IngestStep(p, frame, st, boxes[n])
      && |st.added| == n && |r.added| == n + 1
      && r.added[n] !in st.added && 0 <= r.added[n] < r.next
  {
    assert boxes[..n + 1][..n] == boxes[..n];
    var st := IngestFold(p, frame, boxes[..n], StartPass(tb));
    IngestFoldInv(p, frame, boxes[..n], tb);
    IngestStepInv(p, frame, tb, st, n, boxes[n]);
    var r := IngestStep(p, frame, st, boxes[n]);
    assert r.added[..n] == st.added;
    assert r.added[n] in r.added;
    if r.added[n] in tb.order { assert r.added[n] in tb.states; }
  }

  /**
   * After ingestion there is exactly one live tracker per detection box, with
   * distinct keys, each bound to its own box and started on this frame.
   */
  lemma IngestChar(p: Primitive, frame: Frame, boxes: seq<Box>, tb: Table)
    requires TableOk(tb)
    ensures var r := Ingest(p, frame, boxes, tb);
      && TableOk(r)
      && |r.order| == |boxes| && |r.states| == |boxes|
      && (forall j | 0 <= j < |boxes| :: r.order[j] in r.states && r.states[r.order[j]] == Spawned(frame, boxes[j]))
  {
    IngestOk(p, frame, boxes, tb);
    var r := Ingest(p, frame, boxes, tb);
    TableSize(r);
    IngestFoldInv(p, frame, boxes, tb);
    var st := IngestFold(p, frame, boxes, StartPass(tb));
    SpawnAllAt(frame, st.added, boxes);
  }

  /** Ingestion yields a well-formed table listing one key per box. */
  lemma IngestOk(p: Primitive, frame: Frame, boxes: seq<Box>, tb: Table)
    requires TableOk(tb)
    ensures var r := Ingest(p, frame, boxes, tb);
      TableOk(r) && |r.order| == |boxes|
  {
    IngestFoldInv(p, frame, boxes, tb);
    var st := IngestFold(p, frame, boxes, StartPass(tb));
    SpawnAllKeys(frame, st.added, boxes);
    var r := Ingest(p, frame, boxes, tb);
    assert r.order == st.added && r.next == st.next;
    forall k | k in r.states ensures 0 <= k < r.next {
      assert k in st.added;
      if k in tb.order { assert k in tb.states; }
    }
  }

  /**
   * Every live key after ingestion is an old id claimed in this pass or an id
   * allocated in it; the ids allocated are exactly those from the old
   * counter up to the new one, so the counter grows by the number of boxes
   * that claimed no old id and no id is handed out twice.
   */
  lemma IngestIds(p: Primitive, frame: Frame, boxes: seq<Box>, tb: Table)
    requires TableOk(tb)
    ensures var r := Ingest(p, frame, boxes, tb);
      && tb.next <= r.next
      && (forall k | k in r.states :: k in tb.states || tb.next <= k < r.next)
      && (forall k :: tb.next <= k < r.next ==> k in r.states)
      && r.next - tb.next == |boxes| - |Keep(tb.order, r.states.Keys)|
  {
    IngestFoldInv(p, frame, boxes, tb);
    var st := IngestFold(p, frame, boxes, StartPass(tb));
    SpawnAllKeys(frame, st.added, boxes);
    SpawnAllAt(frame, st.added, boxes);
    var r := Ingest(p, frame, boxes, tb);
    assert r.order == st.added && r.next == st.next;
    KeepCount(tb.order, st.pool, r.states.Keys);
  }

  /**
   * As no score ever exceeds 7, the pass never claims an old id and probes no
   * tracker: every box allocates the next id of the counter.
   */
  lemma {:induction false} IngestFoldSpawns(p: Primitive, frame: Frame, boxes: seq<Box>, tb: Table)
    requires TableOk(tb)
    ensures var st := IngestFold(p, frame, boxes, StartPass(tb));
      && st.pool == tb.order && st.states == tb.states
      && st.next == tb.next + |boxes|
      && (forall j | 0 <= j < |boxes| :: st.added[j] == tb.next + j)
    decreases |boxes|
  {
    if |boxes| > 0 {
      var init := boxes[..|boxes| - 1];
      var bb := boxes[|boxes| - 1];
      IngestFoldSpawns(p, frame, init, tb);
      var prev := IngestFold(p, frame, init, StartPass(tb));
      ScoreFoldAllZero(p, frame, bb, prev.pool, prev.states);
      var sc := ScoreFold(p, frame, bb, prev.pool, prev.states);
      ClaimRule(sc.scores);
      assert Claim(sc.scores).None?;
      assert boxes[..|boxes| - 1] == init;
      var st := IngestFold(p, frame, boxes, StartPass(tb));
      assert st == Pass(prev.pool, prev.states, prev.added + [prev.next], prev.next + 1);
      forall j | 0 <= j < |init| ensures st.added[j] == tb.next + j {
        assert st.added[j] == prev.added[j];
      }
    }
  }

  /**
   * So ingestion renumbers: the boxes get the consecutive ids from the old
   * counter on, in box order, the counter grows by the number of boxes, and
   * no old id survives.
   */
  lemma IngestRenumbers(p: Primitive, frame: Frame, boxes: seq<Box>, tb: Table)
    requires TableOk(tb)
    ensures var r := Ingest(p, frame, boxes, tb);
      && r.next == tb.next + |boxes|
      && (forall j | 0 <= j < |boxes| :: r.order[j] == tb.next + j)
      && (forall k | k in r.states :: tb.next <= k < r.next)
      && (forall k | k in tb.states :: k !in r.states)
  {
    IngestFoldSpawns(p, frame, boxes, tb);
    IngestFoldInv(p, frame, boxes, tb);
    var st := IngestFold(p, frame, boxes, StartPass(tb));
    SpawnAllKeys(frame, st.added, boxes);
    SpawnAllAt(frame, st.added, boxes);
    forall x | x in st.added ensures tb.next <= x {
      var j :| 0 <= j < |st.added| && st.added[j] == x;
    }
  }

  /** A sequence without duplicates has as many distinct elements as entries. */
  lemma {:induction false} DistinctCount(s: seq<int>)
    requires NoDup(s)
    ensures |set x | x in s| == |s|
    decreases |s|
  {
    if |s| > 0 {
      var init := s[..|s| - 1];
      assert NoDup(init);
      DistinctCount(init);
      assert (set x | x in s) == (set x | x in init) + {s[|s| - 1]} by {
        assert s == init + [s[|s| - 1]];
      }
    }
  }

  /** A well-formed table has one entry per listed key. */
  lemma TableSize(tb: Table)
    requires TableOk(tb)
    ensures |tb.states| == |tb.order|
  {
    DistinctCount(tb.order);
    var o := set x | x in tb.order;
    forall x ensures x in tb.states.Keys <==> x in o {
      assert x in tb.order <==> x in tb.states;
    }
    assert tb.states.Keys == o;
  }

  /** Splitting a duplicate-free list into the part in `keys` and the part (the pool) outside. */
  lemma KeepCount(s: seq<int>, pool: seq<int>, keys: set<int>)
    requires NoDup(s) && NoDup(pool)
    requires forall k | k in pool :: k in s
    requires forall k | k in s :: k in pool <==> k !in keys
    ensures |Keep(s, keys)| == |s| - |pool|
  {
    KeepNoDup(s, keys);
    DistinctCount(s);
    DistinctCount(pool);
    DistinctCount(Keep(s, keys));
    KeepSplit(s, pool, keys);
  }

  /** The elements of `s` split into those of the pool and those kept. */
  lemma KeepSplit(s: seq<int>, pool: seq<int>, keys: set<int>)
    requires forall k | k in pool :: k in s
    requires forall k | k in s :: k in pool <==> k !in keys
    ensures var S := set x | x in s; var P := set x | x in pool; var K := set x | x in Keep(s, keys);
      S == P + K && P !! K
  {
    var S := set x | x in s;
    var P := set x | x in pool;
    var K := set x | x in Keep(s, keys);
    forall x ensures x in S <==> x in P + K {
      assert x in K <==> x in s && x in keys;
      assert x in pool ==> x in s;
    }
    forall x | x in P ensures x !in K {
      assert x in s;
    }
  }

  // ---------------------------------------------------------------------------
  // The class
  // ---------------------------------------------------------------------------

  /** The states of the tracker objects held by a dictionary. */
  ghost function StatesOf(d: map<int, Tracker>): map<int, TrackerState>
    reads d.Values
  {
    map k | k in d :: d[k].State()
  }

  /** The tracker objects of `d` hold the states of `m`, key by key. */
  ghost predicate Mirrors(d: map<int, Tracker>, m: map<int, TrackerState>)
    reads d.Values
  {
    d.Keys == m.Keys && forall k | k in d :: d[k].State() == m[k]
  }

  lemma MirrorsStatesOf(d: map<int, Tracker>, m: map<int, TrackerState>)
    requires Mirrors(d, m)
    ensures StatesOf(d) == m
  {
    forall k ensures k in StatesOf(d) <==> k in m {}
    forall k | k in m ensures StatesOf(d)[k] == m[k] {}
  }

  /** A dictionary that only lost entries holds no tracker object it did not hold before. */
  lemma ValuesShrink(d: map<int, Tracker>, d0: map<int, Tracker>)
    requires forall k | k in d :: k in d0 && d[k] == d0[k]
    ensures d.Values <= d0.Values
  {
    forall k | k in d ensures d[k] in d0.Values {
      assert d0[k] == d[k];
    }
  }

  /**
   * A dictionary of trackers with its key order and counter: each key listed
   * once; each tracker knows its own key; keys lie below the counter;
   * distinct keys hold distinct tracker objects.
   */
  ghost predicate Listed(d: map<int, Tracker>, order: seq<int>, i: int)
  {
    && NoDup(order)
    && (forall k :: k in order <==> k in d)
    && (forall k | k in d :: 0 <= k < i && d[k].tid == k)
    && (forall k, k' | k in d && k' in d && k != k' :: d[k] != d[k'])
    && 0 <= i
  }

  /** Adding a new tracker under a new key below the (possibly raised) counter. */
  lemma ListedAdd(d: map<int, Tracker>, order: seq<int>, i: int, i': int, key: int, tr: Tracker)
    requires Listed(d, order, i) && i <= i' && 0 <= key < i' && key !in order
    requires tr.tid == key && forall k | k in d :: d[k] != tr
    ensures Listed(d[key := tr], order + [key], i')
  {
    NoDupAppend(order, key);
  }

  class TrackerList {
    /** `self.d`: the live trackers by id. */
    var d: map<int, Tracker>
    /** The insertion order of `self.d`'s keys, which Python's dict iteration follows. */
    var order: seq<int>
    /** `self.i`: the next id to hand out. */
    var i: int

    /**
     * Each key listed once; each tracker knows its own key; keys lie below
     * the counter; distinct keys hold distinct tracker objects.
     */
    ghost predicate Valid()
      reads this
    {
      Listed(d, order, i)
    }

    ghost function View(): map<int, TrackerState>
      reads this, d.Values
    {
      StatesOf(d)
    }

    /** The dictionary as a Table. */
    ghost function Abs(): Table
      reads this, d.Values
    {
      Table(order, View(), i)
    }

    constructor ()
      ensures Valid() && Abs() == Table([], map[], 0)
    {
      d := map[];
      order := [];
      i := 0;
    }

    /**
     * `TrackerList.update(frame)`: update every tracker in key order and
     * delete those whose quality is below 7 or that left the frame. Returns
     * false when an update raised; the trackers kept are the same objects.
     */
    method Update(p: Primitive, frame: Frame) returns (ok: bool)
      requires Valid()
      modifies this, d.Values
      ensures Valid()
      ensures (Abs(), ok) == Propagate(p, frame, old(Abs()))
      ensures forall k | k in d :: k in old(d) && d[k] == old(d)[k]
    {
      var ks := order;
      ghost var s0 := View();
      assert TableOk(old(Abs()));
      ghost var r := PruneFold(p, frame, ks[..0], ks, s0);
      var n := 0;
      while n < |ks|
        invariant 0 <= n <= |ks|
        invariant Valid() && i == old(i)
        invariant forall k | k in d :: k in old(d) && d[k] == old(d)[k]
        invariant NoDup(ks[..n]) && r == PruneFold(p, frame, ks[..n], ks, s0)
        invariant r.ok && r.order == order && Mirrors(d, r.states)
      {
        PruneFoldAdvance(p, frame, ks, s0, n);
        ok := UpdateKey(p, frame, ks[n], r);
        r := PruneFold(p, frame, ks[..n + 1], ks, s0);
        if !ok {
          MirrorsStatesOf(d, r.states);
          return;
        }
        n := n + 1;
      }
      assert ks[..n] == ks;
      MirrorsStatesOf(d, r.states);
      ok := true;
    }

    /**
     * The body of the loop of `TrackerList.update` for the key `fid`, on a
     * list that mirrors the loop state `m`: the list afterwards mirrors one
     * more step of the loop.
     */
    method UpdateKey(p: Primitive, frame: Frame, fid: int, ghost m: Pruned) returns (ok: bool)
      requires Valid() && m.ok && m.order == order && Mirrors(d, m.states) && fid in d
      modifies this, d[fid]
      ensures Valid() && i == old(i)
      ensures forall k | k in d :: k in old(d) && d[k] == old(d)[k]
      ensures var r := PruneStep(p, frame, m, fid);
        ok == r.ok && order == r.order && Mirrors(d, r.states)
    {
      var tr := d[fid];
      var q := tr.Update(p, frame);
      forall k | k in d && k != fid ensures d[k].State() == m.states[k] {
        assert d[k] != tr;
      }
      if q.None? {
        return false;
      }
      if q.value < MinQuality || !tr.IsInFrame(frame.shape) {
        WithoutNoDup(order, fid);
        d := d - {fid};
        order := Without(order, fid);
      }
      ok := true;
    }

    /**
     * The list comprehension `rmscore` of `TrackerList.ingest_detection`:
     * the score of `bb` against each tracker of `pool`, probing (and so
     * rebinding) exactly those whose ratio to `bb` exceeds 0.5.
     */
    method Scores(p: Primitive, frame: Frame, bb: Box, pool: seq<int>, ghost s1: map<int, TrackerState>) returns (rmscore: seq<real>)
      requires Valid() && Mirrors(d, s1) && forall k | k in pool :: k in d
      modifies d.Values
      ensures var sc := ScoreFold(p, frame, bb, pool, s1);
        rmscore == sc.scores && Mirrors(d, sc.states)
    {
      ghost var sc := ScoreFold(p, frame, bb, pool[..0], s1);
      rmscore := [];
      var m := 0;
      while m < |pool|
        invariant 0 <= m <= |pool|
        invariant sc == ScoreFold(p, frame, bb, pool[..m], s1)
        invariant rmscore == sc.scores && Mirrors(d, sc.states)
      {
        var k := pool[m];
        assert pool[..m + 1][..m] == pool[..m];
        var tr := d[k];
        sc := ScoreFold(p, frame, bb, pool[..m + 1], s1);
        if tr.Iou(bb) > MinOverlap {
          var q := tr.TrackingQuality(p, frame, bb);
          assert forall k' | k' in d && k' != k :: d[k'] != tr;
          rmscore := rmscore + [q];
        } else {
          rmscore := rmscore + [0.0];
        }
        m := m + 1;
      }
      assert pool[..m] == pool;
    }

    /**
     * The choice made for one box in the loop of `ingest_detection`, from the
     * pass state `st`: score `bb` against the unclaimed ids `toRemove`, then
     * claim the first best-scoring one when its score exceeds 7, or else take
     * the counter's id and advance the counter. The trackers afterwards
     * mirror the pass state after this box.
     */
    method ChooseId(p: Primitive, frame: Frame, bb: Box, toRemove: seq<int>, ghost st: Pass)
      returns (key: int, rest: seq<int>)
      requires Valid() && Mirrors(d, st.states) && st.pool == toRemove && st.next == i
      requires forall k | k in toRemove :: k in d
      modifies this, d.Values
      ensures Valid() && d == old(d) && order == old(order)
      ensures var r := IngestStep(p, frame, st, bb);
        rest == r.pool && r.added == st.added + [key] && i == r.next && Mirrors(d, r.states)
    {
      var rmscore := Scores(p, frame, bb, toRemove, st.states);
      var am := Claim(rmscore);
      if am.Some? {
        key := toRemove[am.value];
        rest := toRemove[..am.value] + toRemove[am.value + 1..];
      } else {
        key := i;
        rest := toRemove;
        i := i + 1;
      }
    }

    /**
     * `to_add[key] = Tracker(frame, bb, key)`: a new tracker for `bb` under a
     * key not yet in `to_add`; `to_add` then mirrors `spawned` with that entry.
     */
    method AddTracker(frame: Frame, bb: Box, key: int, toAdd: map<int, Tracker>, addOrder: seq<int>,
                      ghost lo: int, ghost spawned: map<int, TrackerState>)
      returns (added: map<int, Tracker>, addedOrder: seq<int>)
      requires Listed(toAdd, addOrder, lo) && lo <= i && key !in addOrder && 0 <= key < i
      requires Mirrors(toAdd, spawned) && forall k | k in toAdd :: toAdd[k] !in d.Values
      ensures addedOrder == addOrder + [key] && Listed(added, addedOrder, i)
      ensures Mirrors(added, spawned[key := Spawned(frame, bb)])
      ensures forall k | k in added :: added[k] !in d.Values
      ensures forall k | k in added :: (k in toAdd && added[k] == toAdd[k]) || fresh(added[k])
    {
      var tr := new Tracker(frame, bb, key);
      ListedAdd(toAdd, addOrder, lo, i, key, tr);
      added := toAdd[key := tr];
      addedOrder := addOrder + [key];
    }

    /**
     * Where the loop over the boxes stands after `n` boxes: the old trackers
     * mirror the pass's states, `to_remove` is the pass's pool, and `to_add`
     * holds a new tracker per box processed, under the ids the pass handed out.
     */
    ghost predicate Matching(p: Primitive, frame: Frame, lbox: seq<Box>, tb: Table, n: nat,
                             toRemove: seq<int>, toAdd: map<int, Tracker>, addOrder: seq<int>)
      reads this, d.Values, toAdd.Values
    {
      && n <= |lbox| && Valid() && TableOk(tb)
      && var st := IngestFold(p, frame, lbox[..n], StartPass(tb));
      && st.pool == toRemove && st.added == addOrder && st.next == i
      && Mirrors(d, st.states)
      && |addOrder| == n && Mirrors(toAdd, SpawnAll(frame, addOrder, lbox[..n]))
      && Listed(toAdd, addOrder, i)
      && forall k | k in toAdd :: toAdd[k] !in d.Values
    }

    /** One iteration of the loop over the boxes of `TrackerList.ingest_detection`: the box `lbox[n]`. */
    method MatchOne(p: Primitive, frame: Frame, lbox: seq<Box>, ghost tb: Table, n: nat,
                    toRemove: seq<int>, toAdd: map<int, Tracker>, addOrder: seq<int>)
      returns (toRemove': seq<int>, toAdd': map<int, Tracker>, addOrder': seq<int>)
      requires n < |lbox| && Matching(p, frame, lbox, tb, n, toRemove, toAdd, addOrder)
      modifies this, d.Values
      ensures d == old(d) && order == old(order)
      ensures Matching(p, frame, lbox, tb, n + 1, toRemove', toAdd', addOrder')
      ensures forall k | k in toAdd' :: (k in toAdd && toAdd'[k] == toAdd[k]) || fresh(toAdd'[k])
    {
      ghost var st := IngestFold(p, frame, lbox[..n], StartPass(tb));
      IngestAdvance(p, frame, lbox, tb, n);
      ghost var lo := i;
      var key, rest := ChooseId(p, frame, lbox[n], toRemove, st);
      SpawnAllSnoc(frame, addOrder, key, lbox, n);
      toAdd', addOrder' := AddTracker(frame, lbox[n], key, toAdd, addOrder, lo, SpawnAll(frame, addOrder, lbox[..n]));
      toRemove' := rest;
    }

    /**
     * The loop over the boxes of `TrackerList.ingest_detection`, from the
     * table `tb` the list mirrors: it leaves the old trackers mirroring the
     * pass's states and returns `to_add`, whose keys in insertion order are
     * the ids the pass handed out.
     */
    method MatchBoxes(p: Primitive, frame: Frame, lbox: seq<Box>, ghost tb: Table)
      returns (toAdd: map<int, Tracker>, addOrder: seq<int>)
      requires Valid() && TableOk(tb) && tb.order == order && tb.next == i && Mirrors(d, tb.states)
      modifies this, d.Values
      ensures Valid() && d == old(d) && order == old(order)
      ensures var st := IngestFold(p, frame, lbox, StartPass(tb));
        && addOrder == st.added && i == st.next
        && Mirrors(toAdd, SpawnAll(frame, addOrder, lbox)) && Listed(toAdd, addOrder, i)
      ensures forall k | k in toAdd :: toAdd[k] !in d.Values
      ensures forall k | k in toAdd :: fresh(toAdd[k])
    {
      var toRemove := order;
      toAdd := map[];
      addOrder := [];
      var n := 0;
      assert lbox[..0] == [];
      while n < |lbox|
        invariant d == old(d) && order == old(order)
        invariant Matching(p, frame, lbox, tb, n, toRemove, toAdd, addOrder)
        invariant forall k | k in toAdd :: fresh(toAdd[k])
      {
        toRemove, toAdd, addOrder := MatchOne(p, frame, lbox, tb, n, toRemove, toAdd, addOrder);
        n := n + 1;
      }
      assert lbox[..n] == lbox;
    }

    /**
     * `TrackerList.ingest_detection(frame, lbox)`: match each box greedily to
     * an unclaimed old tracker or allocate a new id, then replace the
     * dictionary by the trackers built for the boxes (all of them new
     * objects).
     */
    method IngestDetection(p: Primitive, frame: Frame, lbox: seq<Box>)
      requires Valid()
      modifies this, d.Values
      ensures Valid()
      ensures Abs() == Ingest(p, frame, lbox, old(Abs()))
      ensures forall k | k in d :: d[k] !in old(d).Values && fresh(d[k])
    {
      ghost var tb := Abs();
      assert TableOk(tb);
      assert Mirrors(d, tb.states);
      var toAdd, addOrder := MatchBoxes(p, frame, lbox, tb);
      d := toAdd;
      order := addOrder;
      MirrorsStatesOf(d, SpawnAll(frame, addOrder, lbox));
    }
  }
}
