/** The table of tests, as far as the repository sync and the result import read and write it. */
module TestTable {
  import opened Prelude
  import opened Paths

  datatype Row = Row(id: string, title: string, kind: string, status: string, priority: string, owner: string,
                     tags: seq<string>, auto: bool, runner: Option<string>, folder: Option<Id>,
                     repoUrl: Option<string>, sourcePath: Option<string>, body: Option<string>,
                     provider: Option<string>, key: Option<string>,
                     sourceRef: string, updatedAt: nat, syncedAt: nat)

  /** A row that has only an id. */
  function NewRow(id: string): Row {
    Row(id, "", "manual", "pending", "med", "", [], false, None, None, None, None, None, None, None, "", 0, 0)
  }

  /** An index into a table, seen from one row further up. */
  function Next(i: Option<nat>): Option<nat> {
    if i.Some? then Some(i.value + 1) else None
  }
}
