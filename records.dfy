/** The project metadata record and the command parameters that build it. */
module Records {

  /** A filesystem path as its components: ["home", "u", "Projects", "CP-1"]. */
  type Path = seq<string>

  /** One project's metadata, stored as project.yaml in the project directory.
      CreatedAt is the RFC 3339 timestamp taken at creation, kept as text. */
  datatype Project = Project(
    id: string,
    name: string,
    status: string,
    tags: seq<string>,
    createdAt: string,
    description: string,
    path: Path)

  /** The parameters of the create and update commands: tags as one
      comma-separated string. */
  datatype Params = Params(id: string, name: string, description: string, status: string, tags: string)

  /** Go's filepath.Join(dir, name) for a name without separators: an empty name
      adds nothing. */
  function Join(dir: Path, name: string): (r: Path)
    ensures name == "" ==> r == dir
    ensures name != "" ==> |r| == |dir| + 1 && r[..|dir|] == dir && r[|dir|] == name
  {
    if name == "" then dir else dir + [name]
  }

  /** Joins a relative path of several components. */
  function JoinAll(dir: Path, rel: Path): Path
    decreases |rel|
  {
    if rel == [] then dir else JoinAll(Join(dir, rel[0]), rel[1..])
  }

  const RecordFile := "project.yaml"

  /** Where a project directory keeps its record. */
  function RecordPath(dir: Path): Path
  {
    dir + [RecordFile]
  }

  /** What a scan over entries collects, in entry order: the projects each
      entry contributes, concatenated. */
  function Collect<T>(es: seq<T>, row: T -> seq<Project>): seq<Project>
  {
    if es == [] then [] else Collect(es[..|es| - 1], row) + row(es[|es| - 1])
  }

  /** A project is collected exactly when some entry contributes it. */
  lemma {:induction false} CollectMembers<T>(es: seq<T>, row: T -> seq<Project>, p: Project)
    ensures p in Collect(es, row) <==> exists i :: 0 <= i < |es| && p in row(es[i])
  {
    if es != [] {
      var n := |es| - 1;
      var init := es[..n];
      CollectMembers(init, row, p);
      if exists i :: 0 <= i < |es| && p in row(es[i]) {
        var i :| 0 <= i < |es| && p in row(es[i]);
        if i < n {
          assert init[i] == es[i];
        }
      }
      if exists i :: 0 <= i < n && p in row(init[i]) {
        var i :| 0 <= i < n && p in row(init[i]);
        assert init[i] == es[i];
      }
    }
  }

  /** Collecting over a concatenation concatenates what the parts collect. */
  lemma {:induction false} CollectAppend<T>(a: seq<T>, b: seq<T>, row: T -> seq<Project>)
    ensures Collect(a + b, row) == Collect(a, row) + Collect(b, row)
    decreases |b|
  {
    if b == [] {
      assert a + b == a;
    } else {
      var m := |b| - 1;
      assert (a + b)[..|a + b| - 1] == a + b[..m];
      CollectAppend(a, b[..m], row);
    }
  }
}
