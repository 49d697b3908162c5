// Output file paths: directory, optional subdirectories, and a file name built from the
// prefix, the datatype, an optional suffix, the partition label and the format.
module FilePaths {
  import opened Prelude

  datatype SubDir = NetworkDir | DatatypeDir | CustomDir(name: string)

  datatype FileOutput = FileOutput(
    outputDir: string,
    prefix: string,
    suffix: Option<string>,
    subdirs: seq<SubDir>,
    overwrite: bool,
    format: string
  )

  // A datatype is known here by its snake-case name.
  type Datatype = string

  // `Path::join` on Unix: an absolute right-hand side replaces the left.
  function Join(dir: string, name: string): string {
    if name != "" && name[0] == '/' then name
    else if dir == "" || dir[|dir| - 1] == '/' then dir + name
    else dir + "/" + name
  }

  function FileName(sink: FileOutput, dt: Datatype, stub: string): string {
    sink.prefix + "__" + dt + FileNameEnd(sink, stub)
  }

  // What follows the datatype name in a file name.
  function FileNameEnd(sink: FileOutput, stub: string): string {
    if sink.suffix.Some? then "__" + sink.suffix.value + "__" + stub + "." + sink.format
    else "__" + stub + "." + sink.format
  }

  function SubDirName(sink: FileOutput, subdir: SubDir, dt: Datatype): string {
    match subdir
    case NetworkDir => sink.prefix
    case DatatypeDir => if sink.suffix.Some? then dt + "__" + sink.suffix.value else dt
    case CustomDir(name) => name
  }

  function Dir(sink: FileOutput, subdirs: seq<SubDir>, dt: Datatype): string {
    if subdirs == [] then sink.outputDir
    else Join(Dir(sink, subdirs[..|subdirs| - 1], dt), SubDirName(sink, subdirs[|subdirs| - 1], dt))
  }

  function PathFor(sink: FileOutput, dt: Datatype, stub: string): string {
    Join(Dir(sink, sink.subdirs, dt), FileName(sink, dt, stub))
  }

  // The file system that a plan is made against: the files that exist, by path, and the
  // directories that exist or can be created.
  datatype Disk = Disk(existing: set<Path>, creatable: string -> bool)

  function PathOn(disk: Disk, sink: FileOutput, dt: Datatype, stub: string): Result<string> {
    if disk.creatable(Dir(sink, sink.subdirs, dt)) then Ok(PathFor(sink, dt, stub))
    else Err(Invalid("could not create dir"))
  }

  method GetPath(disk: Disk, sink: FileOutput, dt: Datatype, stub: string) returns (path: Result<string>)
    ensures path == PathOn(disk, sink, dt, stub)
  {
    var fileName := FileName(sink, dt, stub);
    var outputDir := sink.outputDir;
    for i := 0 to |sink.subdirs|
      invariant outputDir == Dir(sink, sink.subdirs[..i], dt)
    {
      assert sink.subdirs[..i + 1][..i] == sink.subdirs[..i];
      outputDir := Join(outputDir, SubDirName(sink, sink.subdirs[i], dt));
    }
    assert sink.subdirs[..|sink.subdirs|] == sink.subdirs;
    if !disk.creatable(outputDir) {
      return Err(Invalid("could not create dir"));
    }
    path := Ok(Join(outputDir, fileName));
  }

  // --- how paths compare ---

  // A path as it is compared: by its components. Empty ones and `.` do not count, except for
  // the `/` of an absolute path and for a `.` at the head of a relative one.
  type Path = seq<string>

  function Pieces(s: string): (pieces: seq<string>)
    ensures pieces != []
  {
    if s == "" then [""]
    else
      var rest := Pieces(s[1..]);
      if s[0] == '/' then [""] + rest else [[s[0]] + rest[0]] + rest[1..]
  }

  predicate Counts(piece: string) {
    piece != "" && piece != "."
  }

  function Counting(): string -> bool {
    piece => Counts(piece)
  }

  function Parts(s: string): Path {
    Filter(Counting(), Pieces(s))
  }

  predicate StartsWithSlash(s: string) {
    s != "" && s[0] == '/'
  }

  function Lead(s: string): Path {
    if StartsWithSlash(s) then ["/"] else if Pieces(s)[0] == "." then ["."] else []
  }

  function Components(s: string): Path {
    Lead(s) + Parts(s)
  }

  function Last(pieces: seq<string>): string
    requires pieces != []
  {
    pieces[|pieces| - 1]
  }

  // Two texts put together: the last piece of one goes on in the first of the other.
  function Merge(p: seq<string>, q: seq<string>): (r: seq<string>)
    requires p != [] && q != []
    ensures |r| == |p| + |q| - 1
  {
    p[..|p| - 1] + [Last(p) + q[0]] + q[1..]
  }

  // A character at the head of the first piece.
  function Grow(c: char, p: seq<string>): seq<string>
    requires p != []
  {
    [[c] + p[0]] + p[1..]
  }

  lemma MergeSlash(p: seq<string>, q: seq<string>)
    requires p != [] && q != []
    ensures Merge([""] + p, q) == [""] + Merge(p, q)
  {
    assert ([""] + p)[..|p|] == [""] + p[..|p| - 1];
  }

  lemma MergeGrown(c: char, p: seq<string>, q: seq<string>)
    requires p != [] && q != []
    ensures Merge(Grow(c, p), q) == Grow(c, Merge(p, q))
  {
    if |p| == 1 {
      assert [c] + p[0] + q[0] == [c] + (p[0] + q[0]);
      assert Grow(c, p)[..0] == [] && p[..0] == [];
    } else {
      assert Grow(c, p)[..|p| - 1] == [[c] + p[0]] + p[1..|p| - 1];
    }
  }

  lemma {:induction false} PiecesJoin(x: string, y: string)
    ensures Pieces(x + y) == Merge(Pieces(x), Pieces(y))
  {
    var q := Pieces(y);
    if x == "" {
      assert x + y == y && "" + q[0] == q[0];
    } else {
      assert (x + y)[1..] == x[1..] + y && (x + y)[0] == x[0];
      PiecesJoin(x[1..], y);
      if x[0] == '/' {
        MergeSlash(Pieces(x[1..]), q);
      } else {
        MergeGrown(x[0], Pieces(x[1..]), q);
      }
    }
  }

  lemma {:induction false} OnePiece(s: string)
    requires '/' !in s
    ensures Pieces(s) == [s]
  {
    if s == "" {
    } else {
      OnePiece(s[1..]);
      assert [s[0]] + s[1..] == s;
    }
  }

  // What surrounds a text without slashes stays the same whatever that text is.
  lemma PiecesAround(before: string, text: string, after: string)
    requires '/' !in text
    ensures var p, q := Pieces(before), Pieces(after);
            Pieces(before + text + after) == p[..|p| - 1] + [Last(p) + text + q[0]] + q[1..]
  {
    OnePiece(text);
    PiecesJoin(before, text);
    PiecesJoin(before + text, after);
    var p := Pieces(before);
    assert Merge(p, [text]) == p[..|p| - 1] + [Last(p) + text];
    assert Merge(p, [text])[..|p| - 1] == p[..|p| - 1];
  }

  // --- datatypes have paths of their own ---

  // Datatype names are snake case: not empty, and neither with a slash nor a dot.
  predicate IsName(dt: Datatype) {
    dt != "" && '/' !in dt && '.' !in dt
  }

  // Joined to or with anything, the two texts give as many components.
  predicate Alike(x: string, y: string) {
    (x == "" <==> y == "") && (StartsWithSlash(x) <==> StartsWithSlash(y)) && Lead(x) == Lead(y) &&
    |Parts(x)| == |Parts(y)|
  }

  lemma MergeBlank(p: seq<string>, q: seq<string>)
    requires p != [] && q != [] && Last(p) == ""
    ensures Merge(p, q) == p[..|p| - 1] + q
    ensures Filter(Counting(), Merge(p, q)) == Filter(Counting(), p) + Filter(Counting(), q)
  {
    var front := p[..|p| - 1];
    assert "" + q[0] == q[0] && [q[0]] + q[1..] == q && p == front + [Last(p)];
    FilterAppend(Counting(), front, q);
    FilterExtends(Counting(), front, Last(p));
  }

  lemma MergeSlashed(p: seq<string>, q: seq<string>)
    requires p != []
    ensures Merge(p, [""] + q) == p + q
    ensures Filter(Counting(), Merge(p, [""] + q)) == Filter(Counting(), p) + Filter(Counting(), q)
  {
    assert Last(p) + "" == Last(p) && p == p[..|p| - 1] + [Last(p)];
    assert ([""] + q)[1..] == q;
    FilterAppend(Counting(), p, q);
  }

  lemma JoinAfter(dir: string, name: string)
    requires dir != "" && !StartsWithSlash(name)
    ensures Parts(Join(dir, name)) == Parts(dir) + Parts(name) && Lead(Join(dir, name)) == Lead(dir)
  {
    var p, q := Pieces(dir), Pieces(name);
    if dir[|dir| - 1] == '/' {
      EndsInSlash(dir);
      PiecesJoin(dir, name);
      MergeBlank(p, q);
    } else {
      SlashPiece(name);
      PiecesJoin(dir, "/" + name);
      assert dir + "/" + name == dir + ("/" + name);
      MergeSlashed(p, q);
    }
  }

  lemma SlashPiece(name: string)
    ensures Pieces("/" + name) == [""] + Pieces(name)
  {
    assert ("/" + name)[1..] == name;
  }

  lemma {:induction false} EndsInSlash(dir: string)
    requires dir != "" && dir[|dir| - 1] == '/'
    ensures |Pieces(dir)| > 1 && Last(Pieces(dir)) == ""
  {
    if |dir| == 1 {
      assert dir[1..] == "";
    } else {
      EndsInSlash(dir[1..]);
    }
  }

  lemma JoinInstead(dir: string, name: string)
    requires dir == "" || StartsWithSlash(name)
    ensures Join(dir, name) == name
  {
  }

  lemma JoinAlike(da: string, db: string, na: string, nb: string)
    requires Alike(da, db) && Alike(na, nb)
    ensures Alike(Join(da, na), Join(db, nb))
  {
    if da == "" || StartsWithSlash(na) {
      JoinInstead(da, na);
      JoinInstead(db, nb);
    } else {
      JoinAfter(da, na);
      JoinAfter(db, nb);
    }
  }

  // A text that holds a name, and the component in which it does.
  lemma Plugged(before: string, dt: Datatype, after: string)
    requires IsName(dt)
    ensures var p, q := Pieces(before), Pieces(after);
            Parts(before + dt + after) ==
            Filter(Counting(), p[..|p| - 1]) + [Last(p) + dt + q[0]] + Filter(Counting(), q[1..])
  {
    var p, q := Pieces(before), Pieces(after);
    var mid := Last(p) + dt + q[0];
    PiecesAround(before, dt, after);
    assert Counts(mid) by {
      assert mid[|Last(p)|] == dt[0] && dt[0] in dt && dt[0] != '.';
    }
    FilterAppend(Counting(), p[..|p| - 1] + [mid], q[1..]);
    FilterExtends(Counting(), p[..|p| - 1], mid);
  }

  lemma PluggedLead(before: string, dt: Datatype, after: string)
    requires IsName(dt)
    ensures Lead(before + dt + after) == if Lead(before) == ["/"] || |Pieces(before)| > 1 then Lead(before) else []
  {
    var p, q := Pieces(before), Pieces(after);
    var text := before + dt + after;
    PiecesAround(before, dt, after);
    assert dt[0] in dt;
    if before == "" {
      assert text[0] == dt[0];
    } else {
      assert text[0] == before[0];
    }
    if |p| == 1 {
      assert Pieces(text)[0] == Last(p) + dt + q[0];
      assert Pieces(text)[0][|Last(p)|] == dt[0];
    } else {
      assert Pieces(text)[0] == p[0];
    }
  }

  lemma PluggedAlike(before: string, a: Datatype, b: Datatype, after: string)
    requires IsName(a) && IsName(b)
    ensures Alike(before + a + after, before + b + after)
  {
    Plugged(before, a, after);
    Plugged(before, b, after);
    PluggedLead(before, a, after);
    PluggedLead(before, b, after);
    assert a[0] in a && b[0] in b;
    assert before != "" ==> (before + a + after)[0] == before[0] == (before + b + after)[0];
    assert before == "" ==> (before + a + after)[0] == a[0] && (before + b + after)[0] == b[0];
  }

  lemma PluggedInjective(before: string, a: Datatype, b: Datatype, after: string)
    requires IsName(a) && IsName(b) && Parts(before + a + after) == Parts(before + b + after)
    ensures a == b
  {
    Plugged(before, a, after);
    Plugged(before, b, after);
    var p, q := Pieces(before), Pieces(after);
    var k := |Filter(Counting(), p[..|p| - 1])|;
    var left, right := Last(p), q[0];
    assert left + a + right == Parts(before + a + after)[k] == left + b + right;
    assert |left + a + right| == |left + b + right|;
    assert (left + a + right)[|left|..|left| + |a|] == a && (left + b + right)[|left|..|left| + |b|] == b;
  }

  lemma SubDirAlike(sink: FileOutput, subdir: SubDir, a: Datatype, b: Datatype)
    requires IsName(a) && IsName(b)
    ensures Alike(SubDirName(sink, subdir, a), SubDirName(sink, subdir, b))
  {
    if subdir.DatatypeDir? {
      var after := if sink.suffix.Some? then "__" + sink.suffix.value else "";
      PluggedAlike("", a, b, after);
      assert "" + a + after == SubDirName(sink, subdir, a) && "" + b + after == SubDirName(sink, subdir, b);
    }
  }

  lemma {:induction false} DirAlike(sink: FileOutput, subdirs: seq<SubDir>, a: Datatype, b: Datatype)
    requires IsName(a) && IsName(b)
    ensures Alike(Dir(sink, subdirs, a), Dir(sink, subdirs, b))
    decreases |subdirs|
  {
    if subdirs == [] {
    } else {
      var init, last := subdirs[..|subdirs| - 1], subdirs[|subdirs| - 1];
      DirAlike(sink, init, a, b);
      SubDirAlike(sink, last, a, b);
      JoinAlike(Dir(sink, init, a), Dir(sink, init, b), SubDirName(sink, last, a), SubDirName(sink, last, b));
    }
  }

  lemma JoinedParts(da: string, db: string, fa: string, fb: string)
    requires Alike(da, db) && Alike(fa, fb) && Components(Join(da, fa)) == Components(Join(db, fb))
    ensures Parts(fa) == Parts(fb)
  {
    if da == "" || StartsWithSlash(fa) {
      JoinInstead(da, fa);
      JoinInstead(db, fb);
      SameEnd(Lead(fa), Parts(fa), Lead(fb), Parts(fb));
    } else {
      JoinAfter(da, fa);
      JoinAfter(db, fb);
      assert Components(Join(da, fa)) == (Lead(da) + Parts(da)) + Parts(fa);
      assert Components(Join(db, fb)) == (Lead(db) + Parts(db)) + Parts(fb);
      SameEnd(Lead(da) + Parts(da), Parts(fa), Lead(db) + Parts(db), Parts(fb));
    }
  }

  lemma SameEnd(a: Path, x: Path, b: Path, y: Path)
    requires a + x == b + y && |a| == |b|
    ensures x == y
  {
    assert x == (a + x)[|a|..] && y == (b + y)[|b|..];
  }

  // For one partition, the paths of two datatypes are never equal.
  lemma PathInjective(sink: FileOutput, a: Datatype, b: Datatype, stub: string)
    requires IsName(a) && IsName(b)
    requires Components(PathFor(sink, a, stub)) == Components(PathFor(sink, b, stub))
    ensures a == b
  {
    var before, after := sink.prefix + "__", FileNameEnd(sink, stub);
    DirAlike(sink, sink.subdirs, a, b);
    PluggedAlike(before, a, b, after);
    assert FileName(sink, a, stub) == before + a + after && FileName(sink, b, stub) == before + b + after;
    JoinedParts(Dir(sink, sink.subdirs, a), Dir(sink, sink.subdirs, b), before + a + after, before + b + after);
    PluggedInjective(before, a, b, after);
  }

  // --- partitions have paths of their own ---

  // What precedes the label in a file name.
  function FileNameStart(sink: FileOutput, dt: Datatype): string {
    sink.prefix + "__" + dt + (if sink.suffix.Some? then "__" + sink.suffix.value + "__" else "__")
  }

  lemma FileNameSplits(sink: FileOutput, dt: Datatype, stub: string)
    ensures FileName(sink, dt, stub) == FileNameStart(sink, dt) + stub + ("." + sink.format)
  {
    if sink.suffix.Some? {
      assert FileNameEnd(sink, stub) == ("__" + sink.suffix.value + "__") + stub + ("." + sink.format);
    } else {
      assert FileNameEnd(sink, stub) == "__" + stub + ("." + sink.format);
    }
  }

  lemma {:induction false} LastKeepsEnd(s: string)
    requires s != "" && s[|s| - 1] != '/'
    ensures var last := Last(Pieces(s)); last != "" && last[|last| - 1] == s[|s| - 1]
  {
    if |s| == 1 {
      assert s[1..] == "";
    } else {
      LastKeepsEnd(s[1..]);
    }
  }

  // After an underscore, a text without slashes is part of a component that always counts.
  lemma Labelled(before: string, stub: string, after: string)
    requires before != "" && before[|before| - 1] == '_' && '/' !in stub
    ensures var p, q := Pieces(before), Pieces(after);
            Parts(before + stub + after) ==
            Filter(Counting(), p[..|p| - 1]) + [Last(p) + stub + q[0]] + Filter(Counting(), q[1..])
    ensures Lead(before + stub + after) == if StartsWithSlash(before) || |Pieces(before)| > 1 then Lead(before) else []
  {
    var p, q, text := Pieces(before), Pieces(after), before + stub + after;
    var mid := Last(p) + stub + q[0];
    LastKeepsEnd(before);
    assert Counts(mid) by {
      assert mid[|Last(p)| - 1] == '_';
    }
    PiecesAround(before, stub, after);
    FilterAppend(Counting(), p[..|p| - 1] + [mid], q[1..]);
    FilterExtends(Counting(), p[..|p| - 1], mid);
    assert text[0] == before[0];
    assert Pieces(text)[0] == if |p| == 1 then mid else p[0];
  }

  lemma LabelledInjective(before: string, a: string, b: string, after: string)
    requires before != "" && before[|before| - 1] == '_' && '/' !in a && '/' !in b
    ensures Alike(before + a + after, before + b + after)
    ensures Parts(before + a + after) == Parts(before + b + after) ==> a == b
  {
    Labelled(before, a, after);
    Labelled(before, b, after);
    var p, q := Pieces(before), Pieces(after);
    var k, left, right := |Filter(Counting(), p[..|p| - 1])|, Last(p), q[0];
    assert (before + a + after)[0] == before[0] == (before + b + after)[0];
    if Parts(before + a + after) == Parts(before + b + after) {
      assert left + a + right == Parts(before + a + after)[k] == left + b + right;
      assert |left + a + right| == |left + b + right|;
      assert (left + a + right)[|left|..|left| + |a|] == a && (left + b + right)[|left|..|left| + |b|] == b;
    }
  }

  // For one datatype, the paths of two partitions are equal only when their labels are.
  lemma LabelInjective(sink: FileOutput, dt: Datatype, a: string, b: string)
    requires '/' !in a && '/' !in b
    requires Components(PathFor(sink, dt, a)) == Components(PathFor(sink, dt, b))
    ensures a == b
  {
    var before, after := FileNameStart(sink, dt), "." + sink.format;
    FileNameSplits(sink, dt, a);
    FileNameSplits(sink, dt, b);
    LabelledInjective(before, a, b, after);
    JoinedParts(Dir(sink, sink.subdirs, dt), Dir(sink, sink.subdirs, dt), before + a + after, before + b + after);
  }

  // --- what a path says ---

  // A text cut at every double underscore, from the left.
  function Fields(s: string): (fields: seq<string>)
    ensures fields != []
  {
    if |s| < 2 then [s]
    else if s[0] == '_' && s[1] == '_' then [""] + Fields(s[2..])
    else [[s[0]] + Fields(s[1..])[0]] + Fields(s[1..])[1..]
  }

  ghost predicate IsField(s: string) {
    (forall i, j | 0 <= i && j == i + 1 && j < |s| :: s[i] != '_' || s[j] != '_') && (s == "" || s[|s| - 1] != '_')
  }

  lemma {:induction false} FieldAlone(s: string)
    requires IsField(s)
    ensures Fields(s) == [s]
  {
    if |s| < 2 {
    } else {
      FieldAlone(s[1..]);
      assert [s[0]] + s[1..] == s;
    }
  }

  lemma {:induction false} FieldFirst(s: string, rest: string)
    requires IsField(s)
    ensures Fields(s + "__" + rest) == [s] + Fields(rest)
  {
    var text := s + "__" + rest;
    if s == "" {
      assert text[2..] == rest;
    } else {
      FieldFirst(s[1..], rest);
      assert text[1..] == s[1..] + "__" + rest && text[0] == s[0];
      assert text[1] == if |s| > 1 then s[1] else '_';
      assert [s[0]] + s[1..] == s;
    }
  }

  // One component: not empty, without a slash, and not a dot.
  predicate IsComponent(s: string) {
    '/' !in s && Counts(s)
  }

  // Names from which a path can be read back: components, and fields between double underscores.
  ghost predicate IsReadable(sink: FileOutput, dt: Datatype, stub: string) {
    && sink.outputDir != "" && IsField(dt) && IsName(dt) && IsComponent(sink.prefix) && IsField(sink.prefix)
    && (sink.suffix.Some? ==> IsField(sink.suffix.value) && '/' !in sink.suffix.value)
    && IsField(stub + "." + sink.format) && '/' !in stub && '/' !in sink.format
    && forall subdir | subdir in sink.subdirs && subdir.CustomDir? :: IsComponent(subdir.name)
  }

  // The suffix as a field of its own, if there is one.
  function SuffixField(sink: FileOutput): seq<string> {
    if sink.suffix.Some? then [sink.suffix.value] else []
  }

  lemma ThreeFields(a: string, b: string, c: string)
    requires IsField(a) && IsField(b) && IsField(c)
    ensures Fields(a + "__" + (b + "__" + c)) == [a, b, c]
  {
    FieldFirst(a, b + "__" + c);
    FieldFirst(b, c);
    FieldAlone(c);
  }

  lemma FourFields(a: string, b: string, c: string, d: string)
    requires IsField(a) && IsField(b) && IsField(c) && IsField(d)
    ensures Fields(a + "__" + (b + "__" + (c + "__" + d))) == [a, b, c, d]
  {
    FieldFirst(a, b + "__" + (c + "__" + d));
    ThreeFields(b, c, d);
  }

  lemma Apart3(a: string, b: string, c: string)
    ensures a + "__" + b + ("__" + c) == a + "__" + (b + "__" + c)
  {
  }

  lemma Apart4(a: string, b: string, c: string, d: string)
    ensures a + "__" + b + ("__" + c + "__" + d) == a + "__" + (b + "__" + (c + "__" + d))
  {
  }

  lemma FileNameFields(sink: FileOutput, dt: Datatype, stub: string)
    requires IsField(sink.prefix) && IsField(dt) && IsField(stub + "." + sink.format)
    requires sink.suffix.Some? ==> IsField(sink.suffix.value)
    ensures Fields(FileName(sink, dt, stub)) == [sink.prefix, dt] + SuffixField(sink) + [stub + "." + sink.format]
  {
    var last := stub + "." + sink.format;
    if sink.suffix.Some? {
      assert FileNameEnd(sink, stub) == "__" + sink.suffix.value + "__" + last;
      Apart4(sink.prefix, dt, sink.suffix.value, last);
      FourFields(sink.prefix, dt, sink.suffix.value, last);
    } else {
      assert FileNameEnd(sink, stub) == "__" + last;
      Apart3(sink.prefix, dt, last);
      ThreeFields(sink.prefix, dt, last);
    }
  }

  lemma FileNameIsComponent(sink: FileOutput, dt: Datatype, stub: string)
    requires '/' !in sink.prefix && '/' !in dt && '/' !in stub && '/' !in sink.format
    requires sink.suffix.Some? ==> '/' !in sink.suffix.value
    ensures IsComponent(FileName(sink, dt, stub))
  {
    assert FileName(sink, dt, stub)[|sink.prefix|] == '_';
    assert '/' !in FileNameEnd(sink, stub);
  }

  // What a directory on the way says: the network, the datatype with the suffix, or its own name.
  predicate SaysSubDir(sink: FileOutput, dt: Datatype, subdir: SubDir, name: string) {
    match subdir
    case NetworkDir => name == sink.prefix
    case DatatypeDir => Fields(name) == [dt] + SuffixField(sink)
    case CustomDir(own) => name == own
  }

  lemma SubDirReads(sink: FileOutput, dt: Datatype, stub: string, subdir: SubDir)
    requires IsReadable(sink, dt, stub) && subdir in sink.subdirs
    ensures var name := SubDirName(sink, subdir, dt); IsComponent(name) && SaysSubDir(sink, dt, subdir, name)
  {
    if subdir.DatatypeDir? {
      assert dt[0] in dt && SubDirName(sink, subdir, dt)[0] == dt[0];
      if sink.suffix.Some? {
        FieldFirst(dt, sink.suffix.value);
        FieldAlone(sink.suffix.value);
      } else {
        FieldAlone(dt);
      }
    }
  }

  lemma ComponentJoined(dir: string, name: string)
    requires dir != "" && IsComponent(name)
    ensures Join(dir, name) != "" && Components(Join(dir, name)) == Components(dir) + [name]
  {
    JoinAfter(dir, name);
    OnePiece(name);
    assert Filter(Counting(), [name]) == [name] by {
      assert [name][1..] == [];
    }
    assert Parts(name) == [name];
  }

  ghost predicate SaySubDirs(sink: FileOutput, dt: Datatype, subdirs: seq<SubDir>, names: Path) {
    |names| == |subdirs| && forall i | 0 <= i < |names| :: SaysSubDir(sink, dt, subdirs[i], names[i])
  }

  function SubDirNames(sink: FileOutput, subdirs: seq<SubDir>, dt: Datatype): (names: Path)
    ensures |names| == |subdirs| && forall i | 0 <= i < |names| :: names[i] == SubDirName(sink, subdirs[i], dt)
  {
    seq(|subdirs|, i requires 0 <= i < |subdirs| => SubDirName(sink, subdirs[i], dt))
  }

  lemma LastSubDir(sink: FileOutput, subdirs: seq<SubDir>, dt: Datatype)
    requires subdirs != []
    ensures var n := |subdirs| - 1;
            SubDirNames(sink, subdirs, dt) == SubDirNames(sink, subdirs[..n], dt) + [SubDirName(sink, subdirs[n], dt)]
    ensures forall subdir | subdir in subdirs[..|subdirs| - 1] :: subdir in subdirs
  {
  }

  lemma {:induction false} DirReads(sink: FileOutput, subdirs: seq<SubDir>, dt: Datatype)
    requires sink.outputDir != "" && forall subdir | subdir in subdirs :: IsComponent(SubDirName(sink, subdir, dt))
    ensures Dir(sink, subdirs, dt) != ""
    ensures Components(Dir(sink, subdirs, dt)) == Components(sink.outputDir) + SubDirNames(sink, subdirs, dt)
    decreases |subdirs|
  {
    if subdirs == [] {
    } else {
      var front, last := subdirs[..|subdirs| - 1], subdirs[|subdirs| - 1];
      LastSubDir(sink, subdirs, dt);
      DirReads(sink, front, dt);
      ComponentJoined(Dir(sink, front, dt), SubDirName(sink, last, dt));
    }
  }

  // A path reads as the output directory, one component a subdirectory, and a file name whose fields
  // are the network, the datatype, the suffix and the label with the format.
  lemma PathReads(sink: FileOutput, dt: Datatype, stub: string)
    requires IsReadable(sink, dt, stub)
    ensures var path, n := Components(PathFor(sink, dt, stub)), |Components(sink.outputDir)|;
            && |path| == n + |sink.subdirs| + 1 && path[..n] == Components(sink.outputDir)
            && SaySubDirs(sink, dt, sink.subdirs, path[n..|path| - 1])
            && Fields(path[|path| - 1]) == [sink.prefix, dt] + SuffixField(sink) + [stub + "." + sink.format]
  {
    var names, file := SubDirNames(sink, sink.subdirs, dt), FileName(sink, dt, stub);
    forall subdir | subdir in sink.subdirs
      ensures IsComponent(SubDirName(sink, subdir, dt))
      ensures SaysSubDir(sink, dt, subdir, SubDirName(sink, subdir, dt))
    {
      SubDirReads(sink, dt, stub, subdir);
    }
    DirReads(sink, sink.subdirs, dt);
    FileNameFields(sink, dt, stub);
    FileNameIsComponent(sink, dt, stub);
    ComponentJoined(Dir(sink, sink.subdirs, dt), file);
    PathParts(Components(PathFor(sink, dt, stub)), Components(sink.outputDir), names, file);
  }

  lemma PathParts(path: Path, dir: Path, names: Path, file: string)
    requires path == dir + names + [file]
    ensures |path| == |dir| + |names| + 1 && path[..|dir|] == dir
    ensures path[|dir|..|path| - 1] == names && path[|path| - 1] == file
  {
  }
}
