/**
 * The desktop side of an export: the project name turned into a folder
 * name, and the files written into that folder. Filesystem writes and
 * base64 decoding are not modelled; the plan lists which file receives
 * which supplied payload.
 */
module SaveExport {
  import opened Base

  /** Letters and digits (ASCII only), `_` and `-` may appear in a folder name. */
  predicate Alnum(c: char) {
    ('a' <= c <= 'z') || ('A' <= c <= 'Z') || ('0' <= c <= '9')
  }

  predicate Allowed(c: char) {
    Alnum(c) || c == '_' || c == '-'
  }

  predicate Clean(s: string) {
    forall i :: 0 <= i < |s| ==> Allowed(s[i])
  }

  /** Every character that may not appear becomes `_`. */
  function Sanitize(name: string): (r: string)
    ensures |r| == |name|
    ensures Clean(r)
    ensures forall i :: 0 <= i < |name| ==> (Allowed(name[i]) ==> r[i] == name[i])
    ensures forall i :: 0 <= i < |name| ==> (!Allowed(name[i]) ==> r[i] == '_')
  {
    seq(|name|, i requires 0 <= i < |name| => if Allowed(name[i]) then name[i] else '_')
  }

  /** A clean name is its own folder name. */
  lemma SanitizeFixesClean(s: string)
    ensures Clean(s) <==> Sanitize(s) == s
  {
    if Sanitize(s) == s {
      assert forall i :: 0 <= i < |s| ==> Allowed(Sanitize(s)[i]);
    }
  }

  lemma SanitizeIdempotent(s: string)
    ensures Sanitize(Sanitize(s)) == Sanitize(s)
  {
    SanitizeFixesClean(Sanitize(s));
  }

  /** Names that differ only where neither is allowed share a folder. */
  lemma SanitizeCollides(a: string, b: string)
    requires |a| == |b|
    requires forall i :: 0 <= i < |a| ==> (a[i] == b[i] || (!Allowed(a[i]) && !Allowed(b[i])))
    ensures Sanitize(a) == Sanitize(b)
  {
  }

  /**
   * The folder an export lands in: the sanitized project name, or
   * `Progetto` for a project without a name, so never the chosen parent
   * folder itself.
   */
  function ExportFolder(projectName: string): (f: string)
    ensures |f| > 0 && Clean(f)
    ensures projectName != "" ==> f == Sanitize(projectName)
    ensures projectName == "" ==> f == "Progetto"
  {
    Sanitize(if projectName == "" then "Progetto" else projectName)
  }

  /** The three orthographic views, in the order the files are written. */
  datatype View = Frontale | Laterale | Pianta

  function ViewTag(v: View): string {
    match v
    case Frontale => "FRONTALE"
    case Laterale => "LATERALE"
    case Pianta => "PIANTA"
  }

  const ViewerName: string := "viewer.html"
  const PngExt: string := ".png"

  /** `<folder>_<VIEW>.png` */
  function PngName(folder: string, v: View): (n: string)
    ensures |n| >= |folder| + 5
    ensures n[..|folder| + 1] == folder + "_"
    ensures n[|n| - 4..] == PngExt
  {
    folder + "_" + ViewTag(v) + PngExt
  }

  /** Reads the view back from a file name made by `PngName`. */
  function ViewOfName(folder: string, n: string): (v: Option<View>)
  {
    if |n| < |folder| + 5 then None
    else
      var tag := n[|folder| + 1..|n| - 4];
      if tag == "FRONTALE" then Some(Frontale)
      else if tag == "LATERALE" then Some(Laterale)
      else if tag == "PIANTA" then Some(Pianta)
      else None
  }

  lemma ViewOfPngName(folder: string, v: View)
    ensures ViewOfName(folder, PngName(folder, v)) == Some(v)
  {
    var n := PngName(folder, v);
    assert n[|folder| + 1..|n| - 4] == ViewTag(v);
  }

  /** Different views never overwrite each other's image. */
  lemma PngNamesDistinct(folder: string, v: View, w: View)
    ensures PngName(folder, v) == PngName(folder, w) <==> v == w
  {
    if PngName(folder, v) == PngName(folder, w) {
      ViewOfPngName(folder, v);
      ViewOfPngName(folder, w);
    }
  }

  /** No output name contains a path separator, so every file lands in the export folder. */
  lemma NamesStayInFolder(name: string, v: View)
    ensures '/' !in PngName(Sanitize(name), v) && '\\' !in PngName(Sanitize(name), v)
    ensures '/' !in ViewerName && '\\' !in ViewerName
  {
    var f := Sanitize(name);
    var n := PngName(f, v);
    forall i | 0 <= i < |n|
      ensures n[i] != '/' && n[i] != '\\'
    {
      if i < |f| {
        assert n[i] == f[i];
        assert Allowed(f[i]);
      }
    }
  }

  /** One file to write: its name inside the folder and the payload it receives. */
  datatype Written = Written(name: string, payload: string)

  datatype Plan = Plan(folder: string, files: seq<Written>)

  function PngFile(folder: string, v: View, png: Option<string>): (r: seq<Written>)
    ensures png.None? ==> r == []
    ensures png.Some? ==> r == [Written(PngName(folder, v), png.value)]
  {
    if png.Some? then [Written(PngName(folder, v), png.value)] else []
  }

  /** The image supplied for a view. */
  function Supplied(v: View, frontale: Option<string>, laterale: Option<string>, pianta: Option<string>): Option<string> {
    match v
    case Frontale => frontale
    case Laterale => laterale
    case Pianta => pianta
  }

  /**
   * `save_export`: a folder named after the sanitized project name holding
   * `viewer.html` and one image per supplied view.
   */
  function SavePlan(projectName: string, html: string,
                    frontale: Option<string>, laterale: Option<string>, pianta: Option<string>): (p: Plan)
    ensures p.folder == Sanitize(projectName)
    ensures |p.files| >= 1 && p.files[0] == Written(ViewerName, html)
    ensures forall v: View ::
      (exists i :: 0 <= i < |p.files| && p.files[i].name == PngName(p.folder, v))
      <==> Supplied(v, frontale, laterale, pianta).Some?
    ensures forall i, v: View :: 0 <= i < |p.files| && p.files[i].name == PngName(p.folder, v) ==>
      Supplied(v, frontale, laterale, pianta) == Some(p.files[i].payload)
  {
    var folder := Sanitize(projectName);
    var files := [Written(ViewerName, html)] + PngFile(folder, Frontale, frontale)
                 + PngFile(folder, Laterale, laterale) + PngFile(folder, Pianta, pianta);
    PlanFiles(folder, html, frontale, laterale, pianta);
    Plan(folder, files)
  }

  lemma PlanFiles(folder: string, html: string,
                  frontale: Option<string>, laterale: Option<string>, pianta: Option<string>)
    ensures var files := [Written(ViewerName, html)] + PngFile(folder, Frontale, frontale)
                 + PngFile(folder, Laterale, laterale) + PngFile(folder, Pianta, pianta);
      && (forall v: View ::
           (exists i :: 0 <= i < |files| && files[i].name == PngName(folder, v))
           <==> Supplied(v, frontale, laterale, pianta).Some?)
      && (forall i, v: View :: 0 <= i < |files| && files[i].name == PngName(folder, v) ==>
           Supplied(v, frontale, laterale, pianta) == Some(files[i].payload))
  {
    var files := [Written(ViewerName, html)] + PngFile(folder, Frontale, frontale)
                 + PngFile(folder, Laterale, laterale) + PngFile(folder, Pianta, pianta);
    forall i, v: View | 0 <= i < |files| && files[i].name == PngName(folder, v)
      ensures Supplied(v, frontale, laterale, pianta) == Some(files[i].payload)
    {
      if i == 0 {
        ViewerIsNoPng(folder, v);
      } else {
        var w := FileView(folder, files[0], files, frontale, laterale, pianta, i);
        PngNamesDistinct(folder, v, w);
      }
    }
    forall v: View
      ensures (exists i :: 0 <= i < |files| && files[i].name == PngName(folder, v))
              <==> Supplied(v, frontale, laterale, pianta).Some?
    {
      if Supplied(v, frontale, laterale, pianta).Some? {
        var i := IndexOfView(folder, html, frontale, laterale, pianta, v);
        assert files[i].name == PngName(folder, v);
      }
    }
  }

  /** The viewer page is never mistaken for an image. */
  lemma ViewerIsNoPng(folder: string, v: View)
    ensures ViewerName != PngName(folder, v)
  {
    assert ViewerName[|ViewerName| - 4..] != PngExt;
  }

  /** The view whose image sits at position `i >= 1` of the plan. */
  function FileView(folder: string, head: Written, files: seq<Written>,
                    frontale: Option<string>, laterale: Option<string>, pianta: Option<string>, i: int): (v: View)
    requires files == [head] + PngFile(folder, Frontale, frontale)
                 + PngFile(folder, Laterale, laterale) + PngFile(folder, Pianta, pianta)
    requires 1 <= i < |files|
    ensures Supplied(v, frontale, laterale, pianta).Some?
    ensures files[i] == Written(PngName(folder, v), Supplied(v, frontale, laterale, pianta).value)
  {
    var a := PngFile(folder, Frontale, frontale);
    var b := PngFile(folder, Laterale, laterale);
    var c := PngFile(folder, Pianta, pianta);
    if i < 1 + |a| then Frontale
    else if i < 1 + |a| + |b| then
      assert files[i] == b[i - 1 - |a|];
      Laterale
    else
      assert files[i] == c[i - 1 - |a| - |b|];
      Pianta
  }

  /** Where the image of a supplied view sits in the plan. */
  function IndexOfView(folder: string, html: string,
                       frontale: Option<string>, laterale: Option<string>, pianta: Option<string>, v: View): (i: int)
    requires Supplied(v, frontale, laterale, pianta).Some?
    ensures var files := [Written(ViewerName, html)] + PngFile(folder, Frontale, frontale)
                 + PngFile(folder, Laterale, laterale) + PngFile(folder, Pianta, pianta);
      0 <= i < |files| && files[i].name == PngName(folder, v)
  {
    var a := PngFile(folder, Frontale, frontale);
    var b := PngFile(folder, Laterale, laterale);
    match v
    case Frontale => 1
    case Laterale => 1 + |a|
    case Pianta => 1 + |a| + |b|
  }
}
