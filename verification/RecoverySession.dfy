/**
 A staging session (`stage`, `retrieve` and `inspect` in nixos/scripts/recovery-inspect.py):
 its tree and its state file.  Whatever was recorded as staged is shown to be inspected with
 the recorded counts.
 */
module RecoverySession {
  import opened Base
  import opened RecoveryTree
  import opened TarHeader
  import opened RecoveryTar

  datatype Status = Incomplete | Staged(budget: Budget)

  const NOTHING: Budget := Budget(0, 0)

  // What a session records of a dump.
  function Recorded(extracted: Result<State, Refusal>, exitCode: int): Status {
    if extracted.Ok? && exitCode == 0 then Staged(Reported(extracted.value)) else Incomplete
  }

  lemma KeptIsWhole(st: State)
    requires Inv(st) && Counted(st)
    ensures PrefixClosed(st.tree) && Fits(st.tree, [], NOTHING) && Reported(st) == Sum(NOTHING, st.tree)
  {
    KeptWalks(st);
    assert Below(st.tree, []) == st.tree;
  }

  class Session {
    var status: Status
    var tree: Tree

    // A tree recorded as staged is a whole tree within the limits, of the recorded size.
    ghost predicate Valid()
      reads this
    {
      status.Staged? ==>
        && PrefixClosed(tree)
        && Fits(tree, [], NOTHING)
        && status.budget == Sum(NOTHING, tree)
    }

    constructor ()
      ensures Valid() && status == Incomplete && tree == map[]
    {
      status, tree := Incomplete, map[];
    }

    /** A dump becomes staged exactly when its archive is accepted to the end and its producer
        exits with success; a refusal leaves partial evidence, recorded as incomplete. */
    method Retrieve(dump: Stream, utf8: string -> bool, exitCode: int, partial: Tree)
      requires status.Incomplete?
      modifies this, dump
      ensures Valid()
      ensures status == Recorded(Extract(old(dump.rest), INITIAL, utf8), exitCode)
      ensures status.Staged? ==> tree == Extract(old(dump.rest), INITIAL, utf8).value.tree
    {
      ghost var archive := dump.rest;
      var r := ExtractTar(dump, utf8);
      if r.Ok? {
        ExtractKeeps(archive, INITIAL, utf8);
      }
      Record(r, exitCode, partial);
    }

    method Record(r: Result<State, Refusal>, exitCode: int, partial: Tree)
      requires status.Incomplete? && (r.Ok? ==> Inv(r.value) && Counted(r.value))
      modifies this
      ensures Valid() && status == Recorded(r, exitCode)
      ensures status.Staged? ==> tree == r.value.tree
    {
      if r.Err? {
        tree := partial;
        return;
      }
      tree := r.value.tree;
      if exitCode == 0 {
        KeptIsWhole(r.value);
        status := Staged(Reported(r.value));
      }
    }

    /** A directory tree is staged exactly when it fits the limits, and then copied whole. */
    method Stage(source: Tree)
      requires PrefixClosed(source) && status.Incomplete?
      modifies this
      ensures Valid()
      ensures status.Staged? <==> Fits(source, [], NOTHING)
      ensures status.Staged? ==> tree == source
    {
      assert Below(source, []) == source;
      var r, copy := Walk(source, [], NOTHING);
      tree := copy;
      if r.Ok? {
        status := Staged(r.value);
      }
    }

    /** Inspecting a staged session never runs into a limit, and counts what was recorded. */
    method Inspect() returns (r: Option<Budget>)
      requires Valid()
      ensures r.Some? <==> status.Staged?
      ensures r.Some? ==> r.value == status.budget
    {
      if status.Incomplete? {
        return None;
      }
      assert Below(tree, []) == tree;
      var walked, _ := Walk(tree, [], NOTHING);
      r := Some(walked.value);
    }
  }
}
