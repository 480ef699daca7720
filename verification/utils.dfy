/** Zone/region resolution and the bounded SSH reachability wait (utils.py). */
module Utils {
  import opened Results

  // ---------------------------------------------------------------------------
  // Region candidates
  // ---------------------------------------------------------------------------

  const DefaultLocation: string := "fsn1"
  const DefaultZone: string := "europe"

  /** The fixed zone -> regions table; each zone lists its regions in table order. */
  const Locations: map<string, seq<string>> :=
    map["europe" := ["fsn1", "nbg1", "hel1"], "asia" := ["sin1"], "us" := ["ash", "hil"]]

  /** Resolved zone and the ordered list of regions to try, preferred region first. */
  datatype Selection = Selection(zone: string, candidates: seq<string>)

  /** The KeyError raised by the `locations[zone]` lookup; `key` is the zone looked up. */
  datatype LocationError = KeyError(key: Option<string>)

  predicate Distinct(s: seq<string>) {
    forall i, j :: 0 <= i < j < |s| ==> s[i] != s[j]
  }

  lemma ConsDistinct(x: string, s: seq<string>)
    requires x !in s && Distinct(s)
    ensures Distinct([x] + s)
  {
  }

  /** `s` with every occurrence of `x` removed, the rest kept in order. */
  function Without(s: seq<string>, x: string): (r: seq<string>)
    ensures |r| <= |s|
    ensures forall y :: y in r <==> y in s && y != x
  {
    if s == [] then [] else (if s[0] == x then [] else [s[0]]) + Without(s[1..], x)
  }

  lemma {:induction false} WithoutAbsent(s: seq<string>, x: string)
    requires x !in s
    ensures Without(s, x) == s
  {
    if s != [] {
      WithoutAbsent(s[1..], x);
    }
  }

  lemma {:induction false} WithoutDistinct(s: seq<string>, x: string)
    requires Distinct(s)
    ensures Distinct(Without(s, x))
    ensures |Without(s, x)| == if x in s then |s| - 1 else |s|
  {
    if s != [] {
      DistinctTail(s);
      WithoutDistinct(s[1..], x);
      HeadNotInTail(s);
      var rest := Without(s[1..], x);
      if s[0] == x {
        WithoutAbsent(s[1..], x);
      } else {
        assert x in s <==> x in s[1..] by { assert s == [s[0]] + s[1..]; }
        ConsDistinct(s[0], rest);
      }
    }
  }

  /** Dropping the first element keeps a list duplicate-free. */
  lemma DistinctTail(s: seq<string>)
    requires s != [] && Distinct(s)
    ensures Distinct(s[1..])
  {
    forall i, j | 0 <= i < j < |s[1..]| ensures s[1..][i] != s[1..][j] {
      assert s[1..][i] == s[i + 1] && s[1..][j] == s[j + 1];
    }
  }

  /** In a duplicate-free list, filtering out the element at index i removes
      exactly that position and keeps the order of the others. */
  lemma {:induction false} WithoutAt(s: seq<string>, i: nat)
    requires Distinct(s) && i < |s|
    ensures Without(s, s[i]) == s[..i] + s[i + 1..]
  {
    if i == 0 {
      WithoutHead(s);
      assert Without(s, s[0]) == s[1..];
    } else {
      DistinctTail(s);
      WithoutAt(s[1..], i - 1);
      assert s[1..][i - 1] == s[i];
      assert s[0] != s[i];
      assert s[1..][..i - 1] + s[1..][i..] == s[1..i] + s[i + 1..];
      assert s[..i] == [s[0]] + s[1..i];
    }
  }

  /** Every zone of the table lists at least one region, each region once. */
  lemma TableDistinct()
    ensures forall zone :: zone in Locations ==> Distinct(Locations[zone]) && Locations[zone] != []
  {
  }

  /** get_location: resolve the zone and build the candidate list
      `[location] + [loc for loc in locations[zone] if loc != location]`.
      An explicit location is kept and the zone looked up as given, so a
      missing or unknown zone then fails with KeyError. */
  function GetLocation(zone: Option<string>, location: Option<string>): (r: Result<Selection, LocationError>)
    ensures r.Err? <==> location.Some? && (zone.None? || zone.value !in Locations)
    ensures r.Err? ==> r.error == KeyError(zone)
    ensures r.Ok? ==> r.value.zone in Locations && r.value.candidates != []
    ensures r.Ok? && location.Some? ==> r.value.candidates[0] == location.value && zone == Some(r.value.zone)
  {
    var (z, loc) :=
      if location.Some? then (zone, location.value)
      else if zone.None? || zone.value !in Locations then (Some(DefaultZone), DefaultLocation)
      else (zone, Locations[zone.value][0]);
    if z.None? || z.value !in Locations then Err(KeyError(z))
    else Ok(Selection(z.value, [loc] + Without(Locations[z.value], loc)))
  }

  /** Without a location, a missing or unknown zone falls back to europe/fsn1. */
  lemma DefaultSelection(zone: Option<string>)
    requires zone.None? || zone.value !in Locations
    ensures GetLocation(zone, None) == Ok(Selection("europe", ["fsn1", "nbg1", "hel1"]))
  {
    assert Locations[DefaultZone] == ["fsn1", "nbg1", "hel1"];
    assert GetLocation(zone, None) == Ok(Selection(DefaultZone, [DefaultLocation] + Without(Locations[DefaultZone], DefaultLocation)));
    assert Without(["fsn1", "nbg1", "hel1"], "fsn1") == ["nbg1", "hel1"] by {
      WithoutAbsent(["nbg1", "hel1"], "fsn1");
      assert ["fsn1", "nbg1", "hel1"][1..] == ["nbg1", "hel1"];
    }
    assert [DefaultLocation] + ["nbg1", "hel1"] == ["fsn1", "nbg1", "hel1"];
  }

  /** Without a location, a known zone is kept and its candidates are exactly
      its table entry, in table order. */
  lemma KnownZoneSelection(zone: string)
    requires zone in Locations
    ensures GetLocation(Some(zone), None) == Ok(Selection(zone, Locations[zone]))
  {
    TableDistinct();
    WithoutHead(Locations[zone]);
  }

  lemma WithoutHead(s: seq<string>)
    requires s != [] && Distinct(s)
    ensures [s[0]] + Without(s, s[0]) == s
  {
    HeadNotInTail(s);
    WithoutAbsent(s[1..], s[0]);
    assert Without(s, s[0]) == s[1..];
    assert [s[0]] + s[1..] == s;
  }

  lemma HeadNotInTail(s: seq<string>)
    requires s != [] && Distinct(s)
    ensures s[0] !in s[1..]
  {
    forall k | 0 <= k < |s[1..]| ensures s[1..][k] != s[0] {
      assert s[1..][k] == s[k + 1];
    }
  }

  /** Head and tail of every successful selection: the head is the explicit
      location or the zone's first region; the tail is the zone's whole list
      when the head is not in it, and otherwise the zone's list with the
      head's position cut out, in table order. */
  lemma CandidateOrder(zone: Option<string>, location: Option<string>)
    requires GetLocation(zone, location).Ok?
    ensures var sel := GetLocation(zone, location).value;
      var regions := Locations[sel.zone];
      && sel.candidates[0] == (if location.Some? then location.value else regions[0])
      && (sel.candidates[0] !in regions ==> sel.candidates[1..] == regions)
      && (forall i :: 0 <= i < |regions| && regions[i] == sel.candidates[0] ==>
            sel.candidates[1..] == regions[..i] + regions[i + 1..])
  {
    var sel := GetLocation(zone, location).value;
    var regions := Locations[sel.zone];
    var head := sel.candidates[0];
    assert sel.candidates[1..] == Without(regions, head);
    TableDistinct();
    if head !in regions {
      WithoutAbsent(regions, head);
    }
    forall i | 0 <= i < |regions| && regions[i] == head
      ensures sel.candidates[1..] == regions[..i] + regions[i + 1..]
    {
      WithoutAt(regions, i);
    }
  }

  /** Every successful selection lists no region twice, holds exactly the head
      and the zone's regions, and so is one longer than the zone's list when
      an explicit location lies outside the zone. */
  lemma CandidatesDistinct(zone: Option<string>, location: Option<string>)
    requires GetLocation(zone, location).Ok?
    ensures var sel := GetLocation(zone, location).value;
      var head := sel.candidates[0];
      && Distinct(sel.candidates)
      && |sel.candidates| == (if head in Locations[sel.zone] then |Locations[sel.zone]| else |Locations[sel.zone]| + 1)
      && (forall y :: y in sel.candidates <==> y == head || y in Locations[sel.zone])
  {
    var sel := GetLocation(zone, location).value;
    var head := sel.candidates[0];
    TableDistinct();
    WithoutDistinct(Locations[sel.zone], head);
    var tail := Without(Locations[sel.zone], head);
    assert sel.candidates == [head] + tail;
    ConsDistinct(head, tail);
  }

  // ---------------------------------------------------------------------------
  // Bounded SSH wait
  // ---------------------------------------------------------------------------

  const MaxAttempts: nat := 30
  const RetryDelaySeconds: nat := 10

  /** Outcome of one `ssh ... echo` probe: it answered, it failed in a way the
      loop catches (non-zero exit or timeout), or it raised anything else. */
  datatype Probe = Echoed | NotReady | Uncaught

  /** What wait_ssh does: return True, return False, or let an exception out. */
  datatype WaitOutcome = Reachable | Unreachable | Raised

  /** Observable steps of the wait: a probe, or a sleep. */
  datatype Event = Probed | Slept(seconds: nat)

  /** The outcomes the MaxAttempts probes would have; `probe(k)` is what the
      k-th probe reports if it is made. */
  function Outcomes(probe: nat -> Probe): (outcomes: seq<Probe>)
    ensures |outcomes| == MaxAttempts
    ensures forall k :: 0 <= k < MaxAttempts ==> outcomes[k] == probe(k)
  {
    seq(MaxAttempts, k requires 0 <= k => probe(k))
  }

  /** Reference definition of the wait over the outcomes of the probes it may
      still make: the outcome, and the probes and sleeps in order. */
  function Wait(outcomes: seq<Probe>): (WaitOutcome, seq<Event>)
  {
    if outcomes == [] then (Unreachable, [])
    else match outcomes[0]
      case Echoed => (Reachable, [Probed])
      case Uncaught => (Raised, [Probed])
      case NotReady =>
        var rest := Wait(outcomes[1..]);
        (rest.0, [Probed, Slept(RetryDelaySeconds)] + rest.1)
  }

  /** wait_ssh: up to MaxAttempts probes, a sleep after each failed one, stop
      at the first answer; an exception other than the two caught ones
      propagates. */
  method WaitSsh(probe: nat -> Probe) returns (outcome: WaitOutcome, log: seq<Event>)
    ensures (outcome, log) == Wait(Outcomes(probe))
  {
    ghost var outcomes := Outcomes(probe);
    log := [];
    var attempt := 0;
    while attempt < MaxAttempts
      invariant attempt <= MaxAttempts
      invariant Wait(outcomes).0 == Wait(outcomes[attempt..]).0
      invariant Wait(outcomes).1 == log + Wait(outcomes[attempt..]).1
    {
      ghost var before := log;
      ghost var here := outcomes[attempt..];
      ghost var rest := Wait(outcomes[attempt + 1..]);
      assert here[0] == probe(attempt);
      assert here[1..] == outcomes[attempt + 1..];
      log := log + [Probed];
      var p := probe(attempt);
      if p == Echoed {
        assert Wait(here) == (Reachable, [Probed]);
        return Reachable, log;
      } else if p == Uncaught {
        assert Wait(here) == (Raised, [Probed]);
        return Raised, log;
      }
      assert Wait(here) == (rest.0, [Probed, Slept(RetryDelaySeconds)] + rest.1);
      log := log + [Slept(RetryDelaySeconds)];
      assert log + rest.1 == before + ([Probed, Slept(RetryDelaySeconds)] + rest.1);
      attempt := attempt + 1;
    }
    assert outcomes[attempt..] == [];
    assert log + [] == log;
    outcome := Unreachable;
  }

  function Probes(log: seq<Event>): nat {
    if log == [] then 0 else (if log[0].Probed? then 1 else 0) + Probes(log[1..])
  }

  function Sleeps(log: seq<Event>): nat {
    if log == [] then 0 else (if log[0].Slept? then 1 else 0) + Sleeps(log[1..])
  }

  /** The probes the wait makes and the sleeps it takes: at most one probe per
      available attempt; on giving up, every attempt was made and failed;
      otherwise the last probe made is the first that did not fail in a
      caught way, and no probe follows it; one sleep per failed probe,
      including the last one before giving up. */
  lemma {:induction false} WaitCounts(outcomes: seq<Probe>)
    ensures var (outcome, log) := Wait(outcomes);
      var n := Probes(log);
      && n <= |outcomes|
      && (forall j :: 0 <= j < n - 1 ==> outcomes[j] == NotReady)
      && (outcome == Unreachable ==> n == |outcomes| && forall j :: 0 <= j < n ==> outcomes[j] == NotReady)
      && (outcome != Unreachable ==> 1 <= n && outcomes[n - 1] == (if outcome == Reachable then Echoed else Uncaught))
      && Sleeps(log) == (if outcome == Unreachable then n else n - 1)
  {
    if outcomes != [] && outcomes[0] == NotReady {
      var tail := outcomes[1..];
      WaitCounts(tail);
      var rest := Wait(tail).1;
      var log := [Probed, Slept(RetryDelaySeconds)] + rest;
      assert Wait(outcomes) == (Wait(tail).0, log);
      assert log[1..] == [Slept(RetryDelaySeconds)] + rest;
      assert log[1..][1..] == rest;
      assert Probes(log) == 1 + Probes(rest);
      assert Sleeps(log) == 1 + Sleeps(rest);
      forall j | 1 <= j < |outcomes| ensures outcomes[j] == tail[j - 1] { }
    } else if outcomes != [] {
      assert Wait(outcomes).1 == [Probed];
      assert [Probed][1..] == [];
    }
  }

  /** The log alternates probe, sleep, probe, ...: every sleep lasts
      RetryDelaySeconds and directly follows a failed probe. */
  lemma {:induction false} WaitLogAlternates(outcomes: seq<Probe>)
    ensures forall i :: 0 <= i < |Wait(outcomes).1| ==>
      Wait(outcomes).1[i] == (if i % 2 == 0 then Probed else Slept(RetryDelaySeconds))
  {
    if outcomes != [] && outcomes[0] == NotReady {
      WaitLogAlternates(outcomes[1..]);
      var rest := Wait(outcomes[1..]).1;
      var log := [Probed, Slept(RetryDelaySeconds)] + rest;
      forall i | 2 <= i < |log| ensures log[i] == (if i % 2 == 0 then Probed else Slept(RetryDelaySeconds)) {
        assert log[i] == rest[i - 2];
        assert rest[i - 2] == (if (i - 2) % 2 == 0 then Probed else Slept(RetryDelaySeconds));
        assert (i - 2) % 2 == i % 2;
      }
    }
  }

  /** The wait returns True exactly when some probe answers and every earlier
      one failed in a caught way. */
  lemma {:induction false} ReachableIff(outcomes: seq<Probe>)
    ensures Wait(outcomes).0 == Reachable <==>
      exists i :: 0 <= i < |outcomes| && outcomes[i] == Echoed && forall j :: 0 <= j < i ==> outcomes[j] == NotReady
  {
    if outcomes != [] {
      var tail := outcomes[1..];
      match outcomes[0]
      case Echoed =>
      case Uncaught =>
        forall i | 0 <= i < |outcomes| && outcomes[i] == Echoed
          ensures !(forall j :: 0 <= j < i ==> outcomes[j] == NotReady)
        {
          assert 0 < i && outcomes[0] != NotReady;
        }
      case NotReady =>
        ReachableIff(tail);
        if Wait(outcomes).0 == Reachable {
          var i :| 0 <= i < |tail| && tail[i] == Echoed && forall j :: 0 <= j < i ==> tail[j] == NotReady;
          assert outcomes[i + 1] == Echoed;
          forall j | 0 <= j < i + 1 ensures outcomes[j] == NotReady {
            if j > 0 { assert outcomes[j] == tail[j - 1]; }
          }
        }
        if exists i :: 0 <= i < |outcomes| && outcomes[i] == Echoed && forall j :: 0 <= j < i ==> outcomes[j] == NotReady {
          var i :| 0 <= i < |outcomes| && outcomes[i] == Echoed && forall j :: 0 <= j < i ==> outcomes[j] == NotReady;
          assert 0 < i && tail[i - 1] == Echoed;
          forall j | 0 <= j < i - 1 ensures tail[j] == NotReady {
            assert tail[j] == outcomes[j + 1];
          }
        }
    }
  }

  /** When every failure is of the caught kind, the wait returns True iff one
      of the probes it may make would answer. */
  lemma {:induction false} ReachableIffSomeEcho(outcomes: seq<Probe>)
    requires Uncaught !in outcomes
    ensures Wait(outcomes).0 == Reachable <==> Echoed in outcomes
  {
    ReachableIff(outcomes);
    if Echoed in outcomes {
      var k :| 0 <= k < |outcomes| && outcomes[k] == Echoed;
      assert Uncaught !in outcomes[..k] by {
        forall j | 0 <= j < k ensures outcomes[..k][j] != Uncaught {
          assert outcomes[..k][j] == outcomes[j];
        }
      }
      var f := FirstEcho(outcomes, k);
      assert 0 <= f < |outcomes| && outcomes[f] == Echoed && forall j :: 0 <= j < f ==> outcomes[j] == NotReady;
    }
  }

  /** The first answering probe at or below `k`, when no probe raises. */
  function FirstEcho(outcomes: seq<Probe>, k: nat): (f: nat)
    requires k < |outcomes| && outcomes[k] == Echoed
    requires Uncaught !in outcomes[..k]
    ensures f <= k && outcomes[f] == Echoed
    ensures forall j :: 0 <= j < f ==> outcomes[j] == NotReady
  {
    if outcomes[0] == Echoed then 0
    else
      assert outcomes[0] == outcomes[..k][0];
      var f := FirstEcho(outcomes[1..], k - 1);
      assert outcomes[1..][..k - 1] == outcomes[..k][1..];
      f + 1
  }
}
