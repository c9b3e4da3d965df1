/**
 * Project sources: where a project's files come from. A source starts with
 * no directory; `fetch` points it at one (copying first, for a safe-local
 * source) and `clear` removes that directory again.
 */
module Sources {
  import opened Wrappers
  import opened Errors
  import opened Registry

  /** The three source classes: the `Source` base and its two subclasses. */
  datatype SourceClass = Base | SrcLocal | SrcSafeLocal

  /** The part of a source config the sources read. */
  datatype SourceConfig = SourceConfig(kind: string, src: string)

  /** The `sources` table of the factory. */
  const SourceTable: map<string, SourceClass> := map["local" := SrcLocal, "safe-local" := SrcSafeLocal]

  /** The kind tag under which a subclass is registered. */
  function Tag(c: SourceClass): string
    requires !c.Base?
  {
    if c.SrcLocal? then "local" else "safe-local"
  }

  /** The class `Sources.create` picks for a kind, or the error it throws. */
  function SourceClassOf(kind: string): (r: Result<SourceClass, Error>)
    ensures r.Success? ==> !r.value.Base?
    ensures r.Failure? ==> r.error == ConfigError(NotFoundMessage("Source", kind))
  {
    Lookup(SourceTable, kind, "Source")
  }

  /** Each subclass is found under its own tag, and exactly the two tags
      are known. */
  lemma SourceTableTags(kind: string)
    ensures forall c: SourceClass :: !c.Base? ==> SourceClassOf(Tag(c)) == Success(c)
    ensures SourceClassOf(kind).Success? <==> kind == "local" || kind == "safe-local"
  {
    assert "local"[0] != "safe-local"[0];
    assert SourceTable.Keys == {"local", "safe-local"};
  }

  /** `path.join` of the parts, without normalisation. */
  function Join(parts: seq<string>): string
  {
    if parts == [] then ""
    else if |parts| == 1 then parts[0]
    else parts[0] + "/" + Join(parts[1..])
  }

  /** Where a project's files live, and where a safe-local source copies them,
      relative to the directory of the source modules. */
  function LocalPath(moduleDir: string, src: string): string
  {
    Join([moduleDir, "../../projects/local/", src])
  }

  function TempPath(moduleDir: string, src: string): string
  {
    Join([moduleDir, "../../projects/temp/", src])
  }

  lemma JoinThree(a: string, b: string, c: string)
    ensures Join([a, b, c]) == a + "/" + b + "/" + c
  {
    assert [a, b, c][1..] == [b, c];
    assert [b, c][1..] == [c];
    assert Join([c]) == c;
    assert Join([b, c]) == b + "/" + c;
    assert Join([a, b, c]) == a + "/" + (b + "/" + c);
  }

  /** The local and temporary directories of a project are different paths
      (before any normalisation by the file system). */
  lemma LocalTempDistinct(moduleDir: string, src: string)
    ensures LocalPath(moduleDir, src) != TempPath(moduleDir, src)
  {
    JoinThree(moduleDir, "../../projects/local/", src);
    JoinThree(moduleDir, "../../projects/temp/", src);
    var l, t := LocalPath(moduleDir, src), TempPath(moduleDir, src);
    var k := |moduleDir| + 1 + |"../../projects/"|;
    assert l[k] == 'l';
    assert t[k] == 't';
  }

  /** The file system as far as sources touch it: the paths that exist, and
      a log of the copies and removals performed. */
  class FileSystem {
    var paths: set<string>
    ghost var copies: seq<(string, string)>
    ghost var removals: seq<string>

    constructor (paths: set<string>)
      ensures this.paths == paths && copies == [] && removals == []
    {
      this.paths := paths;
      copies := [];
      removals := [];
    }

    /** `fs.copy(from, to)`: fails when there is nothing at `from`. */
    method Copy(from: string, to: string) returns (ok: bool)
      modifies this
      ensures ok <==> from in old(paths)
      ensures ok ==> paths == old(paths) + {to} && copies == old(copies) + [(from, to)]
      ensures !ok ==> paths == old(paths) && copies == old(copies)
      ensures removals == old(removals)
    {
      ok := from in paths;
      if ok {
        paths := paths + {to};
        copies := copies + [(from, to)];
      }
    }

    /** `fs.remove(path)`: succeeds whether or not the path exists. */
    method Remove(path: string)
      modifies this
      ensures paths == old(paths) - {path}
      ensures removals == old(removals) + [path]
      ensures copies == old(copies)
    {
      paths := paths - {path};
      removals := removals + [path];
    }
  }

  /** How a `fetch` call settles. */
  datatype FetchResult =
    | Undefined          // the base `fetch` resolves to nothing
    | Fetched(dir: string)
    | CopyFailed         // the copy rejected, and so does `fetch`

  class Source {
    const cls: SourceClass
    const config: SourceConfig
    /** `__dirname` of the module the class is defined in. */
    const moduleDir: string
    var dir: string

    constructor (cls: SourceClass, config: SourceConfig, moduleDir: string)
      ensures this.cls == cls && this.config == config && this.moduleDir == moduleDir
      ensures dir == ""
    {
      this.cls := cls;
      this.config := config;
      this.moduleDir := moduleDir;
      dir := "";
    }

    /** `fetch()`: nothing for the base class; the canonical directory for a
        local source; a fresh copy in the temporary directory for a
        safe-local source, with `dir` set only once the copy succeeded. */
    method Fetch(fs: FileSystem) returns (r: FetchResult)
      modifies this, fs
      ensures cls.Base? ==> r == Undefined && dir == old(dir) && unchanged(fs)
      ensures cls.SrcLocal? ==> dir == LocalPath(moduleDir, config.src) && r == Fetched(dir) && unchanged(fs)
      ensures cls.SrcSafeLocal? ==>
        && fs.removals == old(fs.removals)
        && (if LocalPath(moduleDir, config.src) in old(fs.paths) then
              && dir == TempPath(moduleDir, config.src) && r == Fetched(dir)
              && fs.paths == old(fs.paths) + {dir}
              && fs.copies == old(fs.copies) + [(LocalPath(moduleDir, config.src), dir)]
            else
              r == CopyFailed && dir == old(dir) && fs.paths == old(fs.paths) && fs.copies == old(fs.copies))
    {
      match cls
      case Base =>
        r := Undefined;
      case SrcLocal =>
        dir := LocalPath(moduleDir, config.src);
        r := Fetched(dir);
      case SrcSafeLocal =>
        var source := LocalPath(moduleDir, config.src);
        var destination := TempPath(moduleDir, config.src);
        var ok := fs.Copy(source, destination);
        if ok {
          dir := destination;
          r := Fetched(destination);
        } else {
          r := CopyFailed;
        }
    }

    /** `clear()`: removes `dir` when it is set; a local source overrides it
        to do nothing, so its canonical directory is never removed. `dir`
        itself is left as it was. */
    method Clear(fs: FileSystem)
      modifies fs
      ensures cls.SrcLocal? || dir == "" ==> unchanged(fs)
      ensures !cls.SrcLocal? && dir != "" ==>
        && fs.paths == old(fs.paths) - {dir}
        && fs.removals == old(fs.removals) + [dir]
        && fs.copies == old(fs.copies)
    {
      if cls.SrcLocal? {
        return;
      }
      if dir == "" {
        return;
      }
      fs.Remove(dir);
    }
  }

  /** `Sources.create(config)`: a new source of the class registered for
      `config.kind`, or the `ConfigError` thrown for an unknown kind. */
  method Create(config: SourceConfig, moduleDir: string) returns (r: Result<Source, Error>)
    ensures r.Failure? <==> SourceClassOf(config.kind).Failure?
    ensures r.Failure? ==> r.error == SourceClassOf(config.kind).error
    ensures r.Success? ==>
      && fresh(r.value)
      && r.value.cls == SourceClassOf(config.kind).value
      && r.value.config == config && r.value.moduleDir == moduleDir
      && r.value.dir == ""
  {
    match SourceClassOf(config.kind)
    case Failure(e) =>
      r := Failure(e);
    case Success(c) =>
      var s := new Source(c, config, moduleDir);
      r := Success(s);
  }
}
