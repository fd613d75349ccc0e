/** The journal's replay is the replay the workflow and task models reason about. */
module JournalReplay {
  import Journal
  import WorkflowModel
  import TaskModel

  lemma {:induction false} WorkflowFoldIsReplay(c: Journal.Codec<WorkflowModel.Event, WorkflowModel.Projection>,
                                                es: seq<WorkflowModel.Event>, k: nat)
    requires c.project == WorkflowModel.Project && k <= |es|
    ensures Journal.Fold(c, es, k) == WorkflowModel.Replay(es[..k])
  {
    if k > 0 {
      WorkflowFoldIsReplay(c, es, k - 1);
      assert es[..k][..k - 1] == es[..k - 1];
    }
  }

  lemma {:induction false} TaskFoldIsReplay(c: Journal.Codec<TaskModel.Event, TaskModel.Projection>,
                                            es: seq<TaskModel.Event>, k: nat)
    requires c.project == TaskModel.Project && k <= |es|
    ensures Journal.Fold(c, es, k) == TaskModel.Replay(es[..k])
  {
    if k > 0 {
      TaskFoldIsReplay(c, es, k - 1);
      assert es[..k][..k - 1] == es[..k - 1];
    }
  }
}
