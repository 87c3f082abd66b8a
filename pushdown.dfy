/**
 * The constraint pushdown codec shared by the relations: a table judges each constraint in turn,
 * rejects the plan on the first constraint it refuses, and gives every constraint it accepts the
 * next argument slot (1, 2, 3, ...) and one byte of the token, so that byte k describes the
 * value in slot k + 1.
 */
module Pushdown {
  import opened Wrappers
  import opened Sqlite

  /** What a table decides for one constraint. */
  datatype Verdict = Reject(message: string) | Skip | Accept(code: Byte, omit: bool)

  /**
   * The last of the first n bytes of the token that `isIt` picks, if any: the constraint whose
   * value is still in effect when the values are read in order.
   */
  function LastCode(bitmap: seq<Byte>, n: nat, isIt: Byte -> bool): (k: Option<nat>)
    requires n <= |bitmap|
    ensures k.Some? ==> k.value < n && isIt(bitmap[k.value]) && forall j | k.value < j < n :: !isIt(bitmap[j])
    ensures k.None? ==> forall j | 0 <= j < n :: !isIt(bitmap[j])
  {
    if n == 0 then None
    else if isIt(bitmap[n - 1]) then Some(n - 1)
    else LastCode(bitmap, n - 1, isIt)
  }

  /** The token: the codes of the accepted constraints, in constraint order. */
  function Codes(cs: seq<Constraint>, judge: Constraint -> Verdict): seq<Byte> {
    if cs == [] then []
    else
      var prev := Codes(cs[..|cs| - 1], judge);
      match judge(cs[|cs| - 1])
      case Accept(code, _) => prev + [code]
      case _ => prev
  }

  /** The message of the first rejected constraint, if any. */
  function FirstReject(cs: seq<Constraint>, judge: Constraint -> Verdict): Option<string> {
    if cs == [] then None
    else
      var prev := FirstReject(cs[..|cs| - 1], judge);
      if prev.Some? then prev
      else match judge(cs[|cs| - 1])
        case Reject(m) => Some(m)
        case _ => None
  }

  /** The usage record of constraint i: the next free slot if it is accepted, nil otherwise. */
  function UsageAt(cs: seq<Constraint>, judge: Constraint -> Verdict, i: nat): Option<Usage>
    requires i < |cs|
  {
    match judge(cs[i])
    case Accept(_, omit) => Some(Usage(1 + |Codes(cs[..i], judge)|, omit))
    case _ => None
  }

  function Usages(cs: seq<Constraint>, judge: Constraint -> Verdict): (u: seq<Option<Usage>>)
    ensures |u| == |cs|
  {
    seq(|cs|, i requires 0 <= i < |cs| => UsageAt(cs, judge, i))
  }

  /** Judging one more constraint: its code joins the token, and its rejection becomes the first one if there was none. */
  lemma JudgeStep(cs: seq<Constraint>, judge: Constraint -> Verdict, i: nat)
    requires i < |cs|
    ensures Codes(cs[..i + 1], judge) == Codes(cs[..i], judge) + (if judge(cs[i]).Accept? then [judge(cs[i]).code] else [])
    ensures FirstReject(cs[..i], judge) == None ==>
      FirstReject(cs[..i + 1], judge) == if judge(cs[i]).Reject? then Some(judge(cs[i]).message) else None
  {
    assert cs[..i + 1][..i] == cs[..i] && cs[..i + 1][i] == cs[i];
  }

  /** The token built from a prefix of the constraints is a prefix of the whole token. */
  lemma {:induction false} CodesPrefix(cs: seq<Constraint>, judge: Constraint -> Verdict, i: nat)
    requires i <= |cs|
    ensures |Codes(cs[..i], judge)| <= |Codes(cs, judge)|
    ensures Codes(cs, judge)[..|Codes(cs[..i], judge)|] == Codes(cs[..i], judge)
    decreases |cs|
  {
    if i < |cs| {
      var init := cs[..|cs| - 1];
      assert init[..i] == cs[..i];
      CodesPrefix(init, judge, i);
    } else {
      assert cs[..i] == cs;
    }
  }

  /**
   * An accepted constraint gets the slot one past the codes before it, and the token byte at
   * that position is its code: bitmap[n] and values[n] describe the same constraint.
   */
  lemma ArgvAligned(cs: seq<Constraint>, judge: Constraint -> Verdict, i: nat)
    requires i < |cs| && judge(cs[i]).Accept?
    ensures var k := |Codes(cs[..i], judge)|;
      && k < |Codes(cs, judge)|
      && UsageAt(cs, judge, i) == Some(Usage(k + 1, judge(cs[i]).omit))
      && Codes(cs, judge)[k] == judge(cs[i]).code
  {
    assert cs[..i + 1][..i] == cs[..i];
    CodesPrefix(cs, judge, i + 1);
  }

  /** Slots are handed out in constraint order, so no two accepted constraints share one. */
  lemma ArgvIncreasing(cs: seq<Constraint>, judge: Constraint -> Verdict, i: nat, j: nat)
    requires i < j < |cs| && judge(cs[i]).Accept? && judge(cs[j]).Accept?
    ensures UsageAt(cs, judge, i).value.argvIndex < UsageAt(cs, judge, j).value.argvIndex
  {
    var pre := cs[..j];
    assert pre[..i + 1][..i] == cs[..i];
    assert pre[..i + 1] == cs[..i + 1];
    CodesPrefix(pre, judge, i + 1);
  }

  /** Every byte of the token belongs to some accepted constraint: the slots are exactly 1..|token|. */
  lemma {:induction false} ArgvOnto(cs: seq<Constraint>, judge: Constraint -> Verdict, k: nat)
    requires k < |Codes(cs, judge)|
    ensures exists i :: 0 <= i < |cs| && judge(cs[i]).Accept? && UsageAt(cs, judge, i).value.argvIndex == k + 1
    decreases |cs|
  {
    var n := |cs| - 1;
    var init := cs[..n];
    if k < |Codes(init, judge)| {
      ArgvOnto(init, judge, k);
      var i :| 0 <= i < |init| && judge(init[i]).Accept? && UsageAt(init, judge, i).value.argvIndex == k + 1;
      assert init[..i] == cs[..i];
      assert UsageAt(cs, judge, i) == UsageAt(init, judge, i);
    } else {
      assert cs[..n] == init;
      assert judge(cs[n]).Accept?;
      assert UsageAt(cs, judge, n).value.argvIndex == k + 1;
    }
  }

  /** SQLite receives exactly one value per token byte. */
  lemma {:induction false} ArgumentCountIsTokenLength(cs: seq<Constraint>, judge: Constraint -> Verdict)
    ensures ArgumentCount(Usages(cs, judge)) == |Codes(cs, judge)|
    decreases |cs|
  {
    if cs != [] {
      var n := |cs| - 1;
      var init := cs[..n];
      var u := Usages(cs, judge);
      assert u[..n] == Usages(init, judge) by {
        forall i | 0 <= i < n ensures u[i] == Usages(init, judge)[i] {
          assert init[..i] == cs[..i];
        }
      }
      ArgumentCountIsTokenLength(init, judge);
      assert cs[..n] == init;
    }
  }

  /** Once a prefix has been rejected, the whole list is rejected with the same message. */
  lemma {:induction false} FirstRejectPersists(cs: seq<Constraint>, judge: Constraint -> Verdict, i: nat)
    requires i <= |cs| && FirstReject(cs[..i], judge).Some?
    ensures FirstReject(cs, judge) == FirstReject(cs[..i], judge)
    decreases |cs|
  {
    if i < |cs| {
      var init := cs[..|cs| - 1];
      assert init[..i] == cs[..i];
      FirstRejectPersists(init, judge, i);
    } else {
      assert cs[..i] == cs;
    }
  }

  /** A rejected list has a rejected constraint with that message and none rejected before it. */
  lemma {:induction false} FirstRejectFound(cs: seq<Constraint>, judge: Constraint -> Verdict, m: string)
    requires FirstReject(cs, judge) == Some(m)
    ensures exists i :: 0 <= i < |cs| && judge(cs[i]) == Reject(m) && forall j :: 0 <= j < i ==> !judge(cs[j]).Reject?
    decreases |cs|
  {
    var n := |cs| - 1;
    var init := cs[..n];
    if FirstReject(init, judge).Some? {
      FirstRejectFound(init, judge, m);
      var i :| 0 <= i < |init| && judge(init[i]) == Reject(m) && forall j :: 0 <= j < i ==> !judge(init[j]).Reject?;
      assert forall j :: 0 <= j < i ==> cs[j] == init[j];
      assert judge(cs[i]) == Reject(m);
    } else {
      NoRejectBefore(init, judge);
      assert forall j :: 0 <= j < n ==> cs[j] == init[j];
      assert judge(cs[n]) == Reject(m);
    }
  }

  /** The first rejected constraint decides the message of the whole list. */
  lemma {:induction false} FirstRejectOfFirst(cs: seq<Constraint>, judge: Constraint -> Verdict, i: nat)
    requires i < |cs| && judge(cs[i]).Reject? && forall j :: 0 <= j < i ==> !judge(cs[j]).Reject?
    ensures FirstReject(cs, judge) == Some(judge(cs[i]).message)
    decreases |cs|
  {
    var n := |cs| - 1;
    var init := cs[..n];
    if i < n {
      assert init[i] == cs[i] && forall j :: 0 <= j < i ==> init[j] == cs[j];
      FirstRejectOfFirst(init, judge, i);
    } else {
      assert forall j :: 0 <= j < n ==> init[j] == cs[j];
      NoRejectBefore(init, judge);
    }
  }

  /** A list is rejected with message m exactly when some constraint is rejected with m and none before it is rejected. */
  lemma FirstRejectCharacterised(cs: seq<Constraint>, judge: Constraint -> Verdict, m: string)
    ensures FirstReject(cs, judge) == Some(m) <==>
      exists i :: 0 <= i < |cs| && judge(cs[i]) == Reject(m) && forall j :: 0 <= j < i ==> !judge(cs[j]).Reject?
  {
    if FirstReject(cs, judge) == Some(m) {
      FirstRejectFound(cs, judge, m);
    }
    if exists i :: 0 <= i < |cs| && judge(cs[i]) == Reject(m) && forall j :: 0 <= j < i ==> !judge(cs[j]).Reject? {
      var i :| 0 <= i < |cs| && judge(cs[i]) == Reject(m) && forall j :: 0 <= j < i ==> !judge(cs[j]).Reject?;
      FirstRejectOfFirst(cs, judge, i);
    }
  }

  /** Without a first rejection no constraint at all is rejected. */
  lemma {:induction false} NoRejectBefore(cs: seq<Constraint>, judge: Constraint -> Verdict)
    ensures FirstReject(cs, judge) == None <==> forall j :: 0 <= j < |cs| ==> !judge(cs[j]).Reject?
    decreases |cs|
  {
    if cs != [] {
      var n := |cs| - 1;
      var init := cs[..n];
      NoRejectBefore(init, judge);
      if FirstReject(init, judge).Some? {
        var j :| 0 <= j < |init| && judge(init[j]).Reject?;
        assert judge(cs[j]).Reject?;
      }
    }
  }
}
