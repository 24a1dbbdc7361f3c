/** The job store under the real validation policy. */
module QueuedJobs {
  import opened EvidenceTypes
  import opened JobTypes
  import opened JobOps
  import opened StoreModel
  import opened RowInvariants
  import opened Runs
  import Validate
  import ValidationPolicy

  function PolicyOf(lib: Validate.Lib): Policy {
    (input: Input) => Validate.Decide(lib, input)
  }

  /** In every run each stored verdict is the one a fresh decision would give. */
  lemma VerdictIsFresh(cfg: Config, ws: seq<World>, es: seq<Event>, n: nat, ji: nat)
    requires Run(cfg, ws, es) && n < |ws| && ji < |ws[n].rows|
    ensures var j := ws[n].rows[ji].job;
            j.validated == JobDecision(cfg.policy, j).validated && j.blockers == JobDecision(cfg.policy, j).blockers
  {
    RunOK(cfg, ws, es, n);
    assert RowOK(cfg.policy, ws[n].rows[ji]);
  }

  /** No queued job is ever validated: its revisions are declared by the client, not built. */
  lemma NeverValidated(lib: Validate.Lib, cfg: Config, ws: seq<World>, es: seq<Event>, n: nat, ji: nat)
    requires cfg.policy == PolicyOf(lib)
    requires Run(cfg, ws, es) && n < |ws| && ji < |ws[n].rows|
    ensures !ws[n].rows[ji].job.validated
  {
    RunOK(cfg, ws, es, n);
    assert RowOK(cfg.policy, ws[n].rows[ji]);
    var j := ws[n].rows[ji].job;
    VerdictIsFresh(cfg, ws, es, n, ji);
    ValidationPolicy.ValidatedIffPolicy(lib, InputOf(j, EvidenceOf(j.tasks)));
  }
}
