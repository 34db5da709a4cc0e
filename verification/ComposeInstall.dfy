/**
 Installing a new compose app (compose_install in engine/nasty-apps/src/lib.rs) and what
 its failure paths clean up.  Every call that can fail is named by an `Op`; `faults` is
 the set of calls that fail in this attempt, so the methods cover every failure pattern.
 A failing file write leaves arbitrary partial content, and a failing `docker compose up`
 leaves arbitrary containers and networks.
 */
module ComposeInstall {
  import opened Base

  type Content = seq<nat>

  datatype Op =
    | ValidateName | ValidateIds | RequireReady | ListContainers
    | MakeDir | BeginDir | BeginList | BeginRead | MarkerWrite | MarkerRename | MarkerSync
    | WriteCompose | WriteEnv | ValidateCompose | PlanImages | ValidateBindings | PullImages
    | SetIdsWrite | SetIdsSync | SyncFiles | ComposeUp
    | FinishSync | FinishUnlink | FinishUnlinkSync
    | RemoveDir
    | RuntimeList | RuntimeContainer | RuntimeNetwork
    | UnlinkCompose | UnlinkEnv | UnlinkMeta | RestoreIdsWrite | RestoreIdsSync
    | UnlinkSidecar | RollbackDir | RollbackSync | TagImages | RollbackUp

  datatype Request = Request(compose: Content, env: Content, ids: seq<string>)

  // What is left behind by calls that fail half-way.
  datatype Debris = Debris(compose: Content, env: Content, containers: set<string>, networks: set<string>)

  datatype Failure =
    | Refused        // before anything was created
    | StageDropped   // the project directory was removed
    | StageKept      // removing the project directory failed; the error is ignored
    | RolledBack     // the rollback reported success
    | RollbackFailed // the rollback reported failure; the marker is kept
    | CommitFailed   // the app runs, finish failed

  class Host {
    var dir: bool
    var compose: Option<Content>
    var env: Option<Content>
    var meta: Option<Content>
    var marker: bool
    var sidecar: Option<seq<string>>
    var containers: set<string>
    var networks: set<string>

    // Nothing of the app is on disk or in Docker.
    predicate FilesGone()
      reads this
    {
      !dir && compose.None? && env.None? && meta.None? && !marker && sidecar.None?
    }

    predicate Gone()
      reads this
    {
      FilesGone() && containers == {} && networks == {}
    }

    predicate Valid()
      reads this
    {
      !dir ==> compose.None? && env.None? && meta.None? && !marker
    }

    method RemoveProjectDir(faults: set<Op>, op: Op) returns (ok: bool)
      requires Valid()
      modifies this`dir, this`compose, this`env, this`meta, this`marker
      ensures Valid()
      ensures ok <==> op !in faults
      ensures ok ==> !dir
      ensures !ok ==> dir == old(dir) && compose == old(compose) && env == old(env) && meta == old(meta) && marker == old(marker)
    {
      ok := op !in faults;
      if ok {
        dir, compose, env, meta, marker := false, None, None, None, false;
      }
    }

    // Write the marker of a project without a previous deployment.
    method Begin(faults: set<Op>) returns (ok: bool)
      requires Valid() && dir && !marker
      modifies this`marker
      ensures Valid()
      ensures ok ==> marker
      ensures ok <==> faults !! {BeginDir, BeginList, BeginRead, MarkerWrite, MarkerRename, MarkerSync}
    {
      if BeginDir in faults || BeginList in faults || BeginRead in faults || MarkerWrite in faults ||
         MarkerRename in faults
      {
        return false;
      }
      marker := true;
      ok := MarkerSync !in faults;
    }

    // Temp file, rename, directory sync; a sidecar without ids keeps its other keys.
    method SetIds(ids: seq<string>, faults: set<Op>, write: Op, sync: Op) returns (ok: bool)
      modifies this`sidecar
      ensures ok <==> write !in faults && sync !in faults
      ensures sidecar == if write in faults then old(sidecar) else Some(ids)
    {
      if write in faults {
        return false;
      }
      sidecar := Some(ids);
      ok := sync !in faults;
    }

    // Remove every container and network labelled with the project.
    method RemoveRuntime(faults: set<Op>) returns (ok: bool)
      modifies this`containers, this`networks
      ensures ok ==> containers == {} && networks == {}
      ensures ok <==> RuntimeList !in faults &&
                      (RuntimeContainer in faults ==> old(containers) == {}) &&
                      (RuntimeNetwork in faults ==> old(networks) == {})
      ensures containers <= old(containers) && networks <= old(networks)
    {
      if RuntimeList in faults {
        return false;
      }
      while containers != {}
        invariant containers <= old(containers) && networks == old(networks)
        invariant RuntimeContainer in faults ==> containers == old(containers)
        decreases |containers|
      {
        if RuntimeContainer in faults {
          return false;
        }
        var id :| id in containers;
        containers := containers - {id};
      }
      while networks != {}
        invariant networks <= old(networks) && containers == {}
        invariant RuntimeNetwork in faults ==> networks == old(networks)
        decreases |networks|
      {
        if RuntimeNetwork in faults {
          return false;
        }
        var id :| id in networks;
        networks := networks - {id};
      }
      ok := true;
    }

    // finish: sync, unlink the marker, sync.
    method Finish(faults: set<Op>) returns (ok: bool)
      requires Valid()
      modifies this`marker
      ensures Valid()
      ensures ok <==> faults !! {FinishSync, FinishUnlink, FinishUnlinkSync}
      ensures marker == (old(marker) && (FinishSync in faults || FinishUnlink in faults))
    {
      if FinishSync in faults || FinishUnlink in faults {
        return false;
      }
      marker := false;
      ok := FinishUnlinkSync !in faults;
    }

    /** Rollback of a project whose marker says there was no previous deployment.  The
        errors of the three unlinks are ignored.  When the compose file survives its unlink
        the rollback goes on as if the app had existed before, and succeeds. */
    method Rollback(faults: set<Op>, reconcile: bool, debris: Debris) returns (ok: bool)
      requires Valid() && dir && marker
      modifies this
      ensures Valid()
      ensures ok && (compose.None? || UnlinkCompose !in faults) ==> FilesGone()
      ensures ok && UnlinkCompose in faults && old(compose).Some? ==> dir && !marker && compose == old(compose)
      ensures ok && old(compose).None? ==> compose.None?
      ensures ok && FilesGone() ==>
                if reconcile then containers == {} && networks == {}
                else containers == old(containers) && networks == old(networks)
    {
      if reconcile {
        var removed := RemoveRuntime(faults);
        if !removed {
          return false;
        }
      }
      if UnlinkCompose !in faults { compose := None; }
      if UnlinkEnv !in faults { env := None; }
      if UnlinkMeta !in faults { meta := None; }
      var restored := SetIds([], faults, RestoreIdsWrite, RestoreIdsSync);
      if !restored {
        return false;
      }
      if compose.None? {
        if UnlinkSidecar in faults {
          return false;
        }
        sidecar := None;
        var dropped := RemoveProjectDir(faults, RollbackDir);
        return dropped && RollbackSync !in faults;
      }
      if TagImages in faults {
        return false;
      }
      if reconcile {
        containers, networks := debris.containers, debris.networks;
        if RollbackUp in faults {
          return false;
        }
      }
      ok := Finish(faults);
    }

    method DropStage(faults: set<Op>) returns (f: Failure)
      requires Valid()
      modifies this`dir, this`compose, this`env, this`meta, this`marker
      ensures Valid()
      ensures f == if RemoveDir in faults then StageKept else StageDropped
      ensures f.StageDropped? ==> !dir
    {
      var ok := RemoveProjectDir(faults, RemoveDir);
      f := if ok then StageDropped else StageKept;
    }

    method Undo(faults: set<Op>, reconcile: bool, debris: Debris) returns (f: Failure)
      requires Valid() && dir && marker && compose.Some?
      modifies this
      ensures Valid()
      ensures f.RolledBack? || f.RollbackFailed?
      ensures f.RolledBack? ==> (FilesGone() <==> UnlinkCompose !in faults)
      ensures f.RolledBack? && UnlinkCompose in faults ==> compose == old(compose) && !marker
      ensures f.RolledBack? && FilesGone() ==>
                if reconcile then containers == {} && networks == {}
                else containers == old(containers) && networks == old(networks)
    {
      var ok := Rollback(faults, reconcile, debris);
      f := if ok then RolledBack else RollbackFailed;
    }

    /** Install a new app.
        Whatever fails before finish: if the clean-up succeeds, then nothing of the app is
        left, in every failure path, exactly when the ignored unlink of the compose file did
        not fail (it is only reached by the rollback paths).  A labelled network that was
        already there before the install survives only the paths that never started
        containers. */
    method ComposeInstall(req: Request, faults: set<Op>, debris: Debris, rollbackDebris: Debris)
      returns (r: Result<(), Failure>)
      requires Valid()
      modifies this
      ensures Valid()
      ensures r.Err? && r.error.Refused? ==>
                && dir == old(dir) && compose == old(compose) && env == old(env) && meta == old(meta)
                && marker == old(marker) && sidecar == old(sidecar)
                && containers == old(containers) && networks == old(networks)
      ensures old(dir) || old(sidecar).Some? || old(containers) != {} ==> r.Err? && r.error.Refused?
      ensures r.Err? && r.error.StageDropped? ==>
                FilesGone() && containers == {} && networks == old(networks)
      ensures r.Err? && r.error.RolledBack? ==> (FilesGone() <==> UnlinkCompose !in faults)
      ensures r.Err? && r.error.RolledBack? && UnlinkCompose in faults ==> compose == Some(req.compose) && !marker
      ensures r.Err? && r.error.RolledBack? && UnlinkCompose !in faults ==>
                && containers == {}
                && networks == if faults !! {SetIdsWrite, SetIdsSync, SyncFiles} then {} else old(networks)
      ensures r.Err? && (r.error.StageDropped? || r.error.RolledBack?) && UnlinkCompose !in faults && old(networks) == {} ==>
                Gone()
      ensures r.Ok? ==>
                && dir && compose == Some(req.compose) && env == Some(req.env) && !marker
                && sidecar == Some(req.ids) && containers == debris.containers && networks == debris.networks
      ensures r.Err? && r.error.CommitFailed? ==>
                compose == Some(req.compose) && env == Some(req.env) && sidecar == Some(req.ids)
    {
      if ValidateName in faults || ValidateIds in faults || RequireReady in faults || ListContainers in faults {
        return Err(Refused);
      }
      if dir || sidecar.Some? || containers != {} {
        return Err(Refused);
      }
      if MakeDir in faults {
        return Err(Refused);
      }
      dir := true;
      var begun := Begin(faults);
      if !begun {
        var f := DropStage(faults);
        return Err(f);
      }
      compose := Some(if WriteCompose in faults then debris.compose else req.compose);
      if WriteCompose in faults {
        var f := DropStage(faults);
        return Err(f);
      }
      env := Some(if WriteEnv in faults then debris.env else req.env);
      if WriteEnv in faults || ValidateCompose in faults || PlanImages in faults || ValidateBindings in faults ||
         PullImages in faults
      {
        var f := DropStage(faults);
        return Err(f);
      }
      var bound := SetIds(req.ids, faults, SetIdsWrite, SetIdsSync);
      if !bound || SyncFiles in faults {
        var f := Undo(faults, false, rollbackDebris);
        return Err(f);
      }
      containers, networks := debris.containers, debris.networks;
      if ComposeUp in faults {
        var f := Undo(faults, true, rollbackDebris);
        return Err(f);
      }
      var done := Finish(faults);
      if !done {
        return Err(CommitFailed);
      }
      r := Ok(());
    }
  }
}
