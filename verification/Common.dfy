/** Values shared by every component: identities, statuses and optional fields. */
module Common {

  datatype Option<+T> = None | Some(value: T)

  datatype Result<+T, +E> = Success(value: T) | Failure(error: E)

  /** PROVIDER_KEYS, in their declared order. */
  datatype Provider = Claude | Codex | Kimi | Pi | Omp | Zcode | Deepseek | Grok | Qwen | Evener

  /** The composite identity `provider NUL sessionId`. */
  datatype Id = Id(provider: Provider, session: string)

  /** Canonical UTC strings compare as instants, so an instant is an integer. */
  type Instant = int

  datatype Status = Idle | Working | Waiting | Error

  function Priority(s: Status): nat {
    match s
    case Idle => 0
    case Working => 1
    case Waiting => 2
    case Error => 3
  }

  /** The higher-priority of two statuses. */
  function MaxStatus(a: Status, b: Status): Status {
    if Priority(a) > Priority(b) then a else b
  }

  /** The highest-priority status in a set; Idle for the empty set. */
  ghost function MaxOf(s: set<Status>): Status {
    if Error in s then Error
    else if Waiting in s then Waiting
    else if Working in s then Working
    else Idle
  }

  /** A sequence without repetitions. */
  ghost predicate Distinct<T>(s: seq<T>) {
    forall i, j :: 0 <= i < j < |s| ==> s[i] != s[j]
  }

  ghost function Elements<T>(s: seq<T>): set<T> {
    set x | x in s
  }

  /** `s` lists every element of `keys` exactly once, in any order. */
  ghost predicate Lists<T(!new)>(s: seq<T>, keys: set<T>) {
    Distinct(s) && forall x :: x in s <==> x in keys
  }

  /** A stamp lands after another; a missing stamp precedes every other. */
  predicate Newer(a: Option<Instant>, b: Option<Instant>) {
    a.Some? && (b.None? || a.value > b.value)
  }

  ghost predicate IsLatest(s: set<Option<Instant>>, o: Option<Instant>) {
    o in s && forall x :: x in s ==> !Newer(x, o)
  }

  /** The latest stamp of a set. */
  ghost function Latest(s: set<Option<Instant>>): (o: Option<Instant>)
    requires s != {}
    ensures IsLatest(s, o)
  {
    LatestExists(s);
    var o :| IsLatest(s, o);
    o
  }

  lemma {:induction false} LatestExists(s: set<Option<Instant>>)
    requires s != {}
    ensures exists o :: IsLatest(s, o)
  {
    var v :| v in s;
    var rest := s - {v};
    assert forall x :: x in s ==> x == v || x in rest;
    if rest == {} {
      assert IsLatest(s, v);
    } else {
      LatestExists(rest);
      var w :| IsLatest(rest, w);
      assert IsLatest(s, if Newer(v, w) then v else w);
    }
  }

  lemma TakeStep<T>(s: seq<T>, n: nat)
    requires n < |s|
    ensures s[..n + 1] == s[..n] + [s[n]]
  {
  }

  lemma ConcatSnoc<T>(a: seq<T>, b: seq<T>)
    requires b != []
    ensures a + b == a + b[..|b| - 1] + [b[|b| - 1]]
  {
  }

  lemma DropLast<T>(s: seq<T>, x: T)
    ensures (s + [x])[..|s|] == s
  {
  }

  lemma TakeTake<T>(s: seq<T>, n: nat)
    requires n < |s|
    ensures s[..n + 1][..n] == s[..n] && s[..n + 1][n] == s[n]
  {
  }

  lemma HeadIn<T>(s: seq<T>)
    ensures s != [] ==> s[0] in s
  {
  }

  lemma TakeAll<T>(s: seq<T>)
    ensures s[..|s|] == s
  {
  }

  /** A listing of a set has as many entries as the set has members. */
  lemma {:induction false} ListingSize<T(!new)>(s: seq<T>, keys: set<T>)
    requires Lists(s, keys)
    ensures |s| == |keys|
    decreases |s|
  {
    if s == [] {
      assert keys == {};
    } else {
      assert s[0] in s;
      forall x ensures x in s[1..] <==> x in keys - {s[0]} {
        if x in keys - {s[0]} {
          var i :| 0 <= i < |s| && s[i] == x;
          assert s[1..][i - 1] == x;
        }
      }
      ListingSize(s[1..], keys - {s[0]});
    }
  }
}
