/**
 * The scanner capability contract and the process-wide registry of scanners (pkg/scanner).
 * A scanner is any value of a type parameter `S`; what it supports and what it scans are
 * given by the relations that use it.
 */
module Scanner {
  import opened Wrappers

  /** The leaves of a fact value: Go strings and booleans. */
  datatype Scalar = Str(text: string) | Flag(on: bool)

  /** A fact value, the `map[string]any` every scanner builds. */
  type Value = map<string, Scalar>

  /** scanner.Fact: a namespaced key and its value. */
  datatype Fact = Fact(key: string, value: Value)

  /** What Scan returns: the facts and the error, which Go returns side by side. */
  datatype Scanned = Scanned(facts: seq<Fact>, err: Option<Error>)

  /** The registry after registering each (name, scanner) pair of `regs` in order, starting empty. */
  function Registered<S>(regs: seq<(string, S)>): map<string, S> {
    if regs == [] then map[]
    else
      var last := regs[|regs| - 1];
      Registered(regs[..|regs| - 1])[last.0 := last.1]
  }

  /** The names of a series of registrations. */
  function Names<S>(regs: seq<(string, S)>): set<string> {
    set i | 0 <= i < |regs| :: regs[i].0
  }

  /** The registry's names are exactly the names registered so far. */
  lemma {:induction false} RegisteredKeys<S>(regs: seq<(string, S)>)
    ensures Registered(regs).Keys == Names(regs)
    decreases |regs|
  {
    if regs != [] {
      var n := |regs| - 1;
      var init := regs[..n];
      RegisteredKeys(init);
      forall x | x in Names(regs) ensures x in Names(init) + {regs[n].0} {
        var i :| 0 <= i < |regs| && regs[i].0 == x;
        if i < n { assert init[i].0 == x; }
      }
      assert Names(regs) == Names(init) + {regs[n].0};
    }
  }

  /** Last write wins: a name maps to the scanner of its latest registration. */
  lemma {:induction false} LastWriteWins<S>(regs: seq<(string, S)>, i: nat)
    requires i < |regs|
    requires forall j :: i < j < |regs| ==> regs[j].0 != regs[i].0
    ensures regs[i].0 in Registered(regs) && Registered(regs)[regs[i].0] == regs[i].1
    decreases |regs|
  {
    var n := |regs| - 1;
    if i < n {
      LastWriteWins(regs[..n], i);
    }
  }

  /** The global `scanners` map, with the registrations that built it. */
  class Registry<S> {
    var scanners: map<string, S>
    ghost var history: seq<(string, S)>

    ghost predicate Valid()
      reads this
    {
      scanners == Registered(history)
    }

    constructor ()
      ensures Valid() && history == [] && scanners == map[]
    {
      scanners := map[];
      history := [];
    }

    /** Register: set the entry for `name`, replacing any scanner registered under it before. */
    method Register(name: string, scanner: S)
      requires Valid()
      modifies this
      ensures Valid() && history == old(history) + [(name, scanner)]
      ensures scanners == old(scanners)[name := scanner]
    {
      scanners := scanners[name := scanner];
      history := history + [(name, scanner)];
      assert history[..|history| - 1] == old(history);
    }

    /** All: the registry map itself. */
    function All(): (m: map<string, S>)
      reads this
      requires Valid()
      ensures m == Registered(history)
    {
      scanners
    }
  }
}
