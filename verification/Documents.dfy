/** Freezing a document upload into a persistent job: `_canonical_persistent_document` against what
    `_handle_document` makes of a message. */
module Documents {
  import opened Prelude
  import opened Paths
  import opened RemoteState

  datatype Doc = Doc(fileId: string, fileName: string, declared: Option<int>)

  /** A caption that is not a command, or one that starts with a slash, split into words.  The words are
      empty if it cannot be split. */
  datatype Caption = Plain | Command(words: seq<string>)

  datatype Message = Message(doc: Doc, caption: Caption)

  /** What a message asks the deployment manager to do. */
  datatype Action = DeployTo(project: string, fileId: string) | PutInto(project: string, target: Path, fileId: string)

  /** Text tables, the upload ceiling, `safe_filename`, and the test for a `.zip` suffix. */
  datatype Rules = Rules(unicode: Unicode, maxUpload: int, safeFile: string -> Option<string>, isZip: string -> bool)

  /** What is in memory or on disk and may have changed when the job runs: the selected projects, the
      existing projects, and where in a project's current release a file name occurs. */
  datatype Surroundings = Surroundings(active: map<int, string>, projects: seq<string>,
                                       found: (string, string) -> seq<string>)

  function TooLarge(r: Rules, d: Doc): bool { d.declared.Some? && d.declared.value > r.maxUpload }

  function ValidProject(r: Rules, name: string): Option<string> {
    var trimmed := r.unicode.strip(name);
    if SafeProject(trimmed) then Some(trimmed) else None
  }

  /** `_pick_project`. */
  function Picked(r: Rules, s: Surroundings, user: int, named: Option<string>): Option<string> {
    if named.Some? && named.value != "" then ValidProject(r, named.value)
    else if user in s.active && s.active[user] != "" then Some(s.active[user])
    else if |s.projects| == 1 then Some(s.projects[0])
    else None
  }

  function TheOnly(paths: seq<string>): Option<string> { if |paths| == 1 then Some(paths[0]) else None }

  function PutAction(r: Rules, project: Option<string>, raw: Option<string>, fileId: string): Option<Action> {
    if project.None? || raw.None? then None
    else
      var target := TargetPath(r.unicode, raw.value);
      if target.None? then None else Some(PutInto(project.value, target.value, fileId))
  }

  predicate Is(c: Caption, command: string) { c.Command? && c.words != [] && c.words[0] == command }

  /** What `_handle_document` does with a message, up to the call of the deployment manager. */
  function Meaning(r: Rules, s: Surroundings, user: int, m: Message): Option<Action> {
    var file := r.safeFile(m.doc.fileName);
    if file.None? || m.doc.fileId == "" || TooLarge(r, m.doc) then None
    else if Is(m.caption, "/deploy") then
      if |m.caption.words| != 2 || !r.isZip(file.value) then None
      else
        var project := Picked(r, s, user, Some(m.caption.words[1]));
        if project.None? then None else Some(DeployTo(project.value, m.doc.fileId))
    else if Is(m.caption, "/put") then
      if |m.caption.words| != 3 then None
      else PutAction(r, Picked(r, s, user, Some(m.caption.words[1])), Some(m.caption.words[2]), m.doc.fileId)
    else
      var project := Picked(r, s, user, None);
      if project.None? || r.isZip(file.value) then None
      else PutAction(r, project, TheOnly(s.found(project.value, file.value)), m.doc.fileId)
  }

  function Frozen(r: Rules, m: Message, file: string, words: seq<string>): Message {
    Message(m.doc.(fileName := file), Command(words))
  }

  /** The message that is stored with the job, or `None` if the upload is refused. */
  function Canonical(r: Rules, s: Surroundings, user: int, m: Message): Option<Message> {
    var file := r.safeFile(m.doc.fileName);
    if file.None? || m.doc.fileId == "" || TooLarge(r, m.doc) then None
    else
      match m.caption
      case Command(words) =>
        if words == [] then None
        else if words[0] == "/deploy" then
          if |words| != 2 then None
          else
            var project := Picked(r, s, user, Some(words[1]));
            if project.None? || !r.isZip(file.value) then None
            else Some(Frozen(r, m, file.value, ["/deploy", project.value]))
        else if words[0] == "/put" then
          if |words| != 3 then None
          else
            var project, target := Picked(r, s, user, Some(words[1])), TargetPath(r.unicode, words[2]);
            if project.None? || target.None? then None
            else Some(Frozen(r, m, file.value, ["/put", project.value, Posix(target.value)]))
        else None
      case Plain =>
        var project := Picked(r, s, user, None);
        if project.None? || r.isZip(file.value) then None
        else
          var only := TheOnly(s.found(project.value, file.value));
          if only.None? then None else Some(Frozen(r, m, file.value, ["/put", project.value, only.value]))
  }

  /** The part of the plugin that keeps the selected projects. */
  class DeployAdmin {
    const rules: Rules
    var active: map<int, string>

    constructor (rules: Rules)
      ensures this.rules == rules && active == map[]
    {
      this.rules, this.active := rules, map[];
    }

    method PickProject(user: int, named: Option<string>, projects: seq<string>) returns (out: Outcome<string>)
      modifies this`active
      ensures var s := Surroundings(old(active), projects, (p, f) => []); var picked := Picked(rules, s, user, named);
        && (picked.Some? ==> out == Done(picked.value))
        && (picked.None? ==> out == Raised(Rejected) && active == old(active))
        && (out.Done? ==> active == old(active)[user := out.value])
      ensures named.Some? && named.value != "" ==>
        var trimmed := rules.unicode.strip(named.value);
        out == if SafeProject(trimmed) then Done(trimmed) else Raised(Rejected)
      ensures named in {None, Some("")} && user in old(active) && old(active)[user] != "" ==>
        out == Done(old(active)[user])
      ensures named in {None, Some("")} && (user !in old(active) || old(active)[user] == "") ==>
        out == if |projects| == 1 then Done(projects[0]) else Raised(Rejected)
    {
      if named.Some? && named.value != "" {
        var project := ValidProject(rules, named.value);
        if project.None? { return Raised(Rejected); }
        active := active[user := project.value];
        return Done(project.value);
      }
      if user in active && active[user] != "" {
        assert active == active[user := active[user]];
        return Done(active[user]);
      }
      if |projects| == 1 {
        active := active[user := projects[0]];
        return Done(projects[0]);
      }
      return Raised(Rejected);
    }

    /** `found` is what `find_by_basename` sees at the time. */
    method CanonicalDocument(user: int, m: Message, projects: seq<string>, found: (string, string) -> seq<string>)
      returns (out: Outcome<Message>)
      modifies this`active
      ensures var canonical := Canonical(rules, Surroundings(old(active), projects, found), user, m);
        && (canonical.Some? ==> out == Done(canonical.value))
        && (canonical.None? ==> out == Raised(Rejected))
      ensures forall u :: u != user ==>
        (u in active <==> u in old(active)) && (u in active ==> active[u] == old(active)[u])
    {
      if m.doc.fileId == "" { return Raised(Rejected); }
      var file := rules.safeFile(m.doc.fileName);
      if file.None? || TooLarge(rules, m.doc) { return Raised(Rejected); }
      match m.caption {
        case Command(words) =>
          if words == [] { return Raised(Rejected); }
          if words[0] == "/deploy" {
            if |words| != 2 { return Raised(Rejected); }
            var project :- PickProject(user, Some(words[1]), projects);
            if !rules.isZip(file.value) { return Raised(Rejected); }
            return Done(Frozen(rules, m, file.value, ["/deploy", project]));
          }
          if words[0] != "/put" || |words| != 3 { return Raised(Rejected); }
          var project :- PickProject(user, Some(words[1]), projects);
          var target := TargetPath(rules.unicode, words[2]);
          if target.None? { return Raised(Rejected); }
          return Done(Frozen(rules, m, file.value, ["/put", project, Posix(target.value)]));
        case Plain =>
          var project :- PickProject(user, None, projects);
          if rules.isZip(file.value) { return Raised(Rejected); }
          var matches := found(project, file.value);
          if |matches| != 1 { return Raised(Rejected); }
          return Done(Frozen(rules, m, file.value, ["/put", project, matches[0]]));
      }
    }
  }

  // ----- the text of a target path --------------------------------------------------------------------

  /** Dropping empty and `.` segments makes a path no longer. */
  lemma {:induction false} SignificantIsShorter(parts: seq<string>)
    requires parts != [] && Significant(parts) != []
    ensures |Join(Significant(parts), '/')| <= |Join(parts, '/')|
  {
    var kept := Significant(parts);
    if |parts| > 1 {
      var rest := Significant(parts[1..]);
      if rest != [] {
        SignificantIsShorter(parts[1..]);
        assert kept == rest || kept == [parts[0]] + rest;
        if kept != rest { assert kept[1..] == rest; }
      } else {
        assert kept == [parts[0]];
      }
    } else {
      assert parts[1..] == [];
      assert kept == [parts[0]];
    }
  }

  lemma PosixIsShorter(text: string)
    requires text != ""
    ensures |Posix(Significant(Split(text, '/')))| <= |text|
  {
    var parts := Split(text, '/');
    if Significant(parts) != [] {
      SignificantIsShorter(parts);
      JoinSplit(text, '/');
    }
  }

  lemma {:induction false} SplitChars(s: string, sep: char, part: string, c: char)
    requires part in Split(s, sep) && c in part
    ensures c in s
  {
    if s != "" {
      var rest := Split(s[1..], sep);
      if part in rest {
        SplitChars(s[1..], sep, part, c);
      } else if s[0] != sep {
        assert part == [s[0]] + rest[0];
        if c != s[0] {
          assert c in rest[0] && rest[0] in rest;
          SplitChars(s[1..], sep, rest[0], c);
        }
      }
    }
  }

  lemma {:induction false} JoinChars(p: Path, sep: char, c: char)
    requires p != [] && c in Join(p, sep)
    ensures c == sep || exists part :: part in p && c in part
  {
    if |p| > 1 {
      if c in p[0] {
        assert p[0] in p;
      } else if c != sep {
        JoinChars(p[1..], sep, c);
        var part :| part in p[1..] && c in part;
        assert part in p;
      }
    } else {
      assert p[0] in p;
    }
  }

  lemma PosixChars(text: string, c: char)
    requires c in Posix(Significant(Split(text, '/')))
    ensures c in text || c == '/' || c == '.'
  {
  }

  /** Trimming removes characters or changes nothing, and leaves project names alone; a dot and a slash
      are visible characters. */
  ghost predicate Plausible(u: Unicode) {
    && (forall s :: u.strip(s) == s || |u.strip(s)| < |s|)
    && (forall s :: SafeProject(s) ==> u.strip(s) == s)
    && !u.invisible('/') && !u.invisible('.')
  }

  lemma TextOfTarget(u: Unicode, raw: string)
    requires Plausible(u) && TargetPath(u, raw).Some?
    ensures var p := TargetPath(u, raw).value; var text := Posix(p);
      && text != "" && |text| <= 240 && '\\' !in text && '\0' !in text && (forall c :: c in text ==> !u.invisible(c))
      && !StartsWith(text, "./") && !HasDoubleSlash(text) && !StartsWith(text, "/")
      && Significant(Split(text, '/')) == p
  {
    var given := Slashed(u.strip(raw));
    var p := TargetPath(u, raw).value;
    PosixRoundTrip(p);
    PosixIsShorter(given);
    forall c | c in Posix(p) ensures c != '\\' && c != '\0' && !u.invisible(c) { PosixChars(given, c); }
    if p != [] { JoinHasNoDoubleSlash(p); }
  }

  /** The text of a target path denotes that path again, unless trimming would change it. */
  lemma TargetSurvives(u: Unicode, raw: string)
    requires Plausible(u) && TargetPath(u, raw).Some?
    ensures var p := TargetPath(u, raw).value;
      TargetPath(u, Posix(p)) == Some(p) <==> u.strip(Posix(p)) == Posix(p)
  {
    var p := TargetPath(u, raw).value;
    TextOfTarget(u, raw);
    if u.strip(Posix(p)) == Posix(p) {
      SlashedIsIdentity(Posix(p));
      assert ".." !in p;
    } else if TargetPath(u, Posix(p)).Some? {
      var shorter := Slashed(u.strip(Posix(p)));
      assert shorter != "" by { assert TargetPath(u, Posix(p)).Some?; }
      PosixIsShorter(shorter);
      assert |Posix(TargetPath(u, Posix(p)).value)| < |Posix(p)|;
    }
  }

  // ----- meaning ------------------------------------------------------------------------------------------

  /** What is refused: an unusable file, a command that is neither `/deploy PROJECT` with a ZIP file nor
      `/put PROJECT PATH` with a valid path, and without a command a ZIP file or a name that does not
      occur exactly once; and whatever names no project. */
  lemma RefusedDocuments(r: Rules, s: Surroundings, user: int, m: Message)
    requires r.safeFile(m.doc.fileName).Some? && m.doc.fileId != ""
    requires m.doc.declared.Some? ==> m.doc.declared.value <= r.maxUpload
    ensures var file := r.safeFile(m.doc.fileName).value; var frozen := Canonical(r, s, user, m);
      match m.caption
      case Command(words) =>
        && (frozen.Some? <==>
              || (|words| == 2 && words[0] == "/deploy" && Picked(r, s, user, Some(words[1])).Some? && r.isZip(file))
              || (|words| == 3 && words[0] == "/put" && Picked(r, s, user, Some(words[1])).Some?
                  && TargetPath(r.unicode, words[2]).Some?))
        && (frozen.Some? ==>
              var p := Picked(r, s, user, Some(words[1])).value;
              && frozen.value.doc == m.doc.(fileName := file)
              && frozen.value.caption == Command(if |words| == 2 then ["/deploy", p]
                                                 else ["/put", p, Posix(TargetPath(r.unicode, words[2]).value)])
              && Meaning(r, s, user, m) == Some(if |words| == 2 then DeployTo(p, m.doc.fileId)
                                                else PutInto(p, TargetPath(r.unicode, words[2]).value, m.doc.fileId)))
      case Plain =>
        && (frozen.Some? <==>
              Picked(r, s, user, None).Some? && !r.isZip(file)
              && |s.found(Picked(r, s, user, None).value, file)| == 1)
        && (frozen.Some? ==>
              var p := Picked(r, s, user, None).value;
              && frozen.value.doc == m.doc.(fileName := file)
              && frozen.value.caption == Command(["/put", p, s.found(p, file)[0]])
              && (Meaning(r, s, user, m).Some? <==> TargetPath(r.unicode, s.found(p, file)[0]).Some?))
  {
  }

  lemma UnusableFileIsRefused(r: Rules, s: Surroundings, user: int, m: Message)
    requires r.safeFile(m.doc.fileName).None? || m.doc.fileId == ""
             || (m.doc.declared.Some? && m.doc.declared.value > r.maxUpload)
    ensures Canonical(r, s, user, m).None? && Meaning(r, s, user, m).None?
  {
  }

  /** Whatever is selected is a valid project, cleaning a file name again changes nothing, and a file name
      that occurs somewhere does so under a usable path. */
  ghost predicate Sensible(r: Rules, s: Surroundings) {
    && Plausible(r.unicode)
    && (forall u :: u in s.active && s.active[u] != "" ==> SafeProject(s.active[u]))
    && (forall p :: p in s.projects ==> SafeProject(p))
    && (forall raw :: r.safeFile(raw).Some? ==> r.safeFile(r.safeFile(raw).value) == r.safeFile(raw))
  }

  lemma PickedIsFixed(r: Rules, s: Surroundings, t: Surroundings, user: int, named: Option<string>)
    requires Sensible(r, s) && Picked(r, s, user, named).Some?
    ensures Picked(r, t, user, Some(Picked(r, s, user, named).value)) == Picked(r, s, user, named)
  {
    var project := Picked(r, s, user, named).value;
    if !(named.Some? && named.value != "") && !(user in s.active && s.active[user] != "") {
      assert s.projects[0] in s.projects;
    }
    assert SafeProject(project);
    assert r.unicode.strip(project) == project;
  }

  /** An upload that is frozen means, whatever the surroundings are when the job runs, what it meant when
      it was enqueued.  The one exception is a path given with `/put` whose normalized text begins or
      ends with white space; it is trimmed once more and then denotes another file or none. */
  lemma FrozenMeaning(r: Rules, s: Surroundings, t: Surroundings, user: int, m: Message)
    requires Sensible(r, s) && Canonical(r, s, user, m).Some?
    ensures Meaning(r, t, user, Canonical(r, s, user, m).value) == Meaning(r, s, user, m) <==>
            !(Is(m.caption, "/put")
              && var text := Posix(TargetPath(r.unicode, m.caption.words[2]).value); r.unicode.strip(text) != text)
  {
    var file := r.safeFile(m.doc.fileName).value;
    assert r.safeFile(file) == Some(file);
    if m.caption.Plain? {
      PickedIsFixed(r, s, t, user, None);
    } else {
      PickedIsFixed(r, s, t, user, Some(m.caption.words[1]));
      if m.caption.words[0] == "/put" { TargetSurvives(r.unicode, m.caption.words[2]); }
    }
  }

  // ----- the exception happens ------------------------------------------------------------------------------

  /** Removes spaces at both ends. */
  function Trimmed(s: string): (t: string)
    ensures t == s || |t| < |s|
  {
    if s == "" then ""
    else if s[0] == ' ' then Trimmed(s[1..])
    else if s[|s| - 1] == ' ' then Trimmed(s[..|s| - 1])
    else s
  }

  function SpacesOnly(): Unicode { Unicode(s => s, c => false, Trimmed) }

  lemma SpacesOnlyIsPlausible()
    ensures Plausible(SpacesOnly())
  {
  }

  /** Every check is passed; a file name is its own safe form. */
  function Lenient(): Rules { Rules(SpacesOnly(), 1000, s => Some(s), s => false) }

  function Alone(): Surroundings { Surroundings(map[], [], (p, f) => []) }

  function PutTo(raw: string): Message { Message(Doc.Doc("id", "f", None), Command(["/put", "p", raw])) }

  lemma TrimmedStays(s: string)
    requires s != "" && s[0] != ' ' && s[|s| - 1] != ' '
    ensures Trimmed(s) == s
  {
  }

  lemma TrimmedLosesLast(s: string)
    requires s != "" && s[0] != ' ' && s[|s| - 1] != ' '
    ensures Trimmed(s + " ") == s
  {
    var t := s + " ";
    assert t[0] == s[0] && t[..|t| - 1] == s;
    TrimmedStays(s);
  }

  lemma JoinTwo(a: string, b: string)
    ensures Join([a, b], '/') == a + "/" + b
  {
    assert [a, b][1..] == [b];
  }

  lemma JoinThree(a: string, b: string, c: string)
    ensures Join([a, b, c], '/') == a + "/" + b + "/" + c
  {
    assert [a, b, c][1..] == [b, c];
    JoinTwo(b, c);
  }

  /** What a text that needs no change denotes. */
  lemma TargetOfParts(u: Unicode, raw: string, parts: seq<string>, text: string)
    requires parts != [] && (forall i :: 0 <= i < |parts| ==> '/' !in parts[i]) && ".." !in parts
    requires u.strip(raw) == text == Join(parts, '/') && 0 < |text| <= 240 && Printable(u, text)
    requires text[0] != '/' && text[0] != '.'
    requires forall i :: 0 <= i < |text| - 1 ==> !(text[i] == '/' && text[i + 1] == '/')
    ensures TargetPath(u, raw) == Some(Significant(parts))
  {
    SlashedIsIdentity(text);
    SplitJoin(parts, '/');
    RefusedTargetPath(u, raw);
  }

  lemma {:induction false} LastIsDropped(parts: seq<string>, last: string)
    requires last == "" || last == "."
    requires "" !in parts && "." !in parts
    ensures Significant(parts + [last]) == parts
  {
    if parts == [] {
      assert Significant([last]) == Significant([last][1..]);
    } else {
      assert (parts + [last])[1..] == parts[1..] + [last];
      LastIsDropped(parts[1..], last);
    }
  }

  /** `dir`, a slash, a space and `/.`: the file named by the space; its text ends with the space. */
  lemma PathWithSpace(dir: string)
    requires SafeRelease(dir)
    ensures TargetPath(SpacesOnly(), dir + "/ /.") == Some([dir, " "]) && Posix([dir, " "]) == dir + "/ "
  {
    JoinThree(dir, " ", ".");
    JoinTwo(dir, " ");
    TrimmedStays(dir + "/ /.");
    assert dir + "/" + " " + "/" + "." == dir + "/ /.";
    TargetOfParts(SpacesOnly(), dir + "/ /.", [dir, " ", "."], dir + "/ /.");
    assert [dir, " ", "."] == [dir, " "] + ["."];
    LastIsDropped([dir, " "], ".");
  }

  lemma PathWithoutSpace(dir: string)
    requires SafeRelease(dir)
    ensures TargetPath(SpacesOnly(), dir + "/ ") == Some([dir])
  {
    JoinTwo(dir, "");
    TrimmedLosesLast(dir + "/");
    assert dir + "/" + " " == dir + "/ " && dir + "/" + "" == dir + "/";
    TargetOfParts(SpacesOnly(), dir + "/ ", [dir, ""], dir + "/");
    assert [dir, ""] == [dir] + [""];
    LastIsDropped([dir], "");
  }

  lemma ProjectStays(r: Rules, s: Surroundings)
    requires r.unicode.strip("p") == "p"
    ensures Picked(r, s, 0, Some("p")) == Some("p")
  {
  }

  lemma MeaningOfPut(raw: string, p: Path)
    requires TargetPath(SpacesOnly(), raw) == Some(p)
    ensures Meaning(Lenient(), Alone(), 0, PutTo(raw)) == Some(PutInto("p", p, "id"))
    ensures Canonical(Lenient(), Alone(), 0, PutTo(raw)) == Some(PutTo(Posix(p)))
  {
    TrimmedStays("p");
    ProjectStays(Lenient(), Alone());
  }

  /** For any ordinary directory name, such as `a`: a `/put` to `a/ /.` means the file named by a space in
      `a`; frozen, it means the file `a`. */
  lemma FreezingChangesTarget(dir: string)
    requires SafeRelease(dir)
    ensures Sensible(Lenient(), Alone())
    ensures var m := PutTo(dir + "/ /."); var frozen := Canonical(Lenient(), Alone(), 0, m);
      && Meaning(Lenient(), Alone(), 0, m) == Some(PutInto("p", [dir, " "], "id"))
      && frozen.Some? && Meaning(Lenient(), Alone(), 0, frozen.value) == Some(PutInto("p", [dir], "id"))
  {
    SpacesOnlyIsPlausible();
    PathWithSpace(dir);
    PathWithoutSpace(dir);
    MeaningOfPut(dir + "/ /.", [dir, " "]);
    MeaningOfPut(dir + "/ ", [dir]);
  }

  /** Freezing a deployment twice is freezing it once. */
  lemma FreezingIsIdempotent(r: Rules, s: Surroundings, t: Surroundings, user: int, m: Message)
    requires Sensible(r, s) && Canonical(r, s, user, m).Some? && Is(m.caption, "/deploy")
    ensures Canonical(r, t, user, Canonical(r, s, user, m).value) == Canonical(r, s, user, m)
  {
    PickedIsFixed(r, s, t, user, Some(m.caption.words[1]));
  }

  /** Freezing is stricter than executing: a caption with an unknown command, which execution treats like
      no caption at all, is refused. */
  lemma UnknownCommandIsRefused(r: Rules, s: Surroundings, user: int, m: Message)
    requires m.caption.Command? && !Is(m.caption, "/deploy") && !Is(m.caption, "/put")
    ensures Canonical(r, s, user, m).None?
    ensures Meaning(r, s, user, m) == Meaning(r, s, user, m.(caption := Plain))
  {
  }
}
