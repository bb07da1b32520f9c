/** The risk gate in terms of the files a task declares. */
module RiskGate {
  import opened Protocol
  import opened ProtocolSafety
  import opened RiskPaths

  /** The risky tasks are those whose declared files give reasons. */
  ghost predicate RiskyByFiles(cfg: Config, files: map<nat, seq<string>>) {
    forall t :: t in cfg.risky <==> t in files && NeedsApproval(files[t])
  }

  /** A path below a risky or forbidden directory, or to a secrets file, by its segments. */
  ghost predicate RiskyPlace(segments: seq<string>) {
    || (exists dir :: dir in {"libs/risk", "apps/supervisor", "freqtrade", "configs/live"} && Segments(dir) <= segments)
    || (segments != [] && segments[|segments| - 1] == ".env")
  }

  lemma ThePlaces()
    ensures forall dir :: dir in RISKY_DIRS || dir == FORBIDDEN_DIR <==>
                          dir in {"libs/risk", "apps/supervisor", "freqtrade", "configs/live"}
    ensures FORBIDDEN_DIR in {"libs/risk", "apps/supervisor", "freqtrade", "configs/live"} && SECRETS_FILE == ".env"
  {
    assert RISKY_DIRS == ["libs/risk", "apps/supervisor", "freqtrade"];
    assert RISKY_DIRS[0] in RISKY_DIRS && RISKY_DIRS[1] in RISKY_DIRS && RISKY_DIRS[2] in RISKY_DIRS;
  }

  lemma ForbiddenFileIsInside()
    ensures "freqtrade" in RISKY_DIRS && Inside(FORBIDDEN_FILE, "freqtrade")
  {
    assert RISKY_DIRS[2] == "freqtrade";
    assert FORBIDDEN_FILE == "freqtrade" + "/" + "user_data/config.live.json";
  }

  /** A path gates its task exactly when its segments lead to such a place. */
  lemma GatedMeansSegments(path: string)
    ensures Gated(path) <==> RiskyPlace(Segments(path))
  {
    hide Segments, Inside, FORBIDDEN_FILE;
    ForbiddenFileIsInside();
    ThePlaces();
    hide RISKY_DIRS, FORBIDDEN_DIR, SECRETS_FILE;
    SecretsFileMeansLastSegment(path);
    forall dir ensures Inside(path, dir) <==> Segments(dir) <= Segments(path) {
      InsideMeansSegments(path, dir);
    }
    if Gated(path) && !Forbidden(path) {
      var dir :| dir in RISKY_DIRS && Inside(path, dir);
      assert Segments(dir) <= Segments(path);
    }
    if dir :| dir in {"libs/risk", "apps/supervisor", "freqtrade", "configs/live"} && Segments(dir) <= Segments(path) {
      assert Inside(path, dir) && (dir in RISKY_DIRS || dir == FORBIDDEN_DIR);
    }
  }

  /** In every interleaving, when a task declares a file in such a place, then it is in progress, failed
      or, unless it was marked done by hand, done only if the operator wrote an approval for it. */
  lemma RiskyFilesWereApproved(
      cfg: Config, files: map<nat, seq<string>>, seeded: set<nat>, db: Db, labels: seq<Label>, t: nat, i: nat)
    requires WellFormed(cfg) && FreshStore(db, seeded) && RiskyByFiles(cfg, files)
    requires t in files && i < |files[t]| && RiskyPlace(Segments(Normalize(files[t][i])))
    ensures var s := StatusOf(Execute(cfg, Boot(db), labels).db.tasks, t);
            s == InProgress || s == Failed || (s == Done && t !in seeded) ==>
              OperatorApproved(Execute(cfg, Boot(db), labels).db.approvals, cfg.names.riskRef(t))
  {
    hide Execute, Normalize, Segments, Gated, RiskyPlace;
    GatedMeansSegments(Normalize(files[t][i]));
    DoneTasksWereValidated(cfg, seeded, db, labels, t);
  }
}
