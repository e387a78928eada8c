/** The restore path filter: which entries of a snapshot are restored for a
    requested source path, after both are normalised the way POSIX
    `os.path.normpath` does. */
module Restore {
  import opened Common

  // ---------------------------------------------------------------- normpath

  /** The number of leading slashes `normpath` keeps: two exactly when the path
      starts with two but not three, else one for a rooted path. */
  function InitialSlashes(path: string): nat
  {
    if StartsWith(path, "/") then
      if StartsWith(path, "//") && !StartsWith(path, "///") then 2 else 1
    else 0
  }

  /** The component loop of `normpath`: empty and "." components vanish, ".."
      pops the previous component unless it cannot (at the root it vanishes;
      in a relative path it is kept). */
  function Resolve(comps: seq<string>, rooted: bool, stack: seq<string>): seq<string>
    decreases |comps|
  {
    if comps == [] then stack
    else
      var c := comps[0];
      var next :=
        if c == "" || c == "." then stack
        else if c != ".." || (!rooted && stack == []) || (stack != [] && stack[|stack| - 1] == "..") then stack + [c]
        else if stack != [] then stack[..|stack| - 1]
        else stack;
      Resolve(comps[1..], rooted, next)
  }

  /** `os.path.normpath` on POSIX. */
  function NormPath(path: string): (r: string)
    ensures r != ""
  {
    if path == "" then "."
    else
      var initial := InitialSlashes(path);
      var joined := Repeat('/', initial) + Join(Resolve(Split(path, '/'), initial > 0, []), '/');
      if joined == "" then "." else joined
  }

  /** The shape of a resolved component list: no empty, "." or slashed
      components; ".." only in a relative path, and only as a leading run. */
  predicate Canonical(stack: seq<string>, rooted: bool)
  {
    (forall i :: 0 <= i < |stack| ==> stack[i] != "" && stack[i] != "." && '/' !in stack[i])
    && (forall i :: 0 <= i < |stack| && stack[i] == ".." ==> !rooted)
    && (forall i, j :: 0 <= i < j < |stack| && stack[j] == ".." ==> stack[i] == "..")
  }

  lemma {:induction false} ResolveCanonical(comps: seq<string>, rooted: bool, stack: seq<string>)
    requires Canonical(stack, rooted)
    requires forall k :: 0 <= k < |comps| ==> '/' !in comps[k]
    ensures Canonical(Resolve(comps, rooted, stack), rooted)
    decreases |comps|
  {
    if comps != [] {
      var c := comps[0];
      var next :=
        if c == "" || c == "." then stack
        else if c != ".." || (!rooted && stack == []) || (stack != [] && stack[|stack| - 1] == "..") then stack + [c]
        else if stack != [] then stack[..|stack| - 1]
        else stack;
      assert Canonical(next, rooted) by {
        if next == stack + [c] {
          assert forall i :: 0 <= i < |stack| ==> next[i] == stack[i];
        } else if stack != [] && next == stack[..|stack| - 1] {
          assert forall i :: 0 <= i < |next| ==> next[i] == stack[i];
        }
      }
      assert forall k :: 0 <= k < |comps| - 1 ==> comps[1..][k] == comps[k + 1];
      ResolveCanonical(comps[1..], rooted, next);
    }
  }

  /** Resolving components that are already canonical changes nothing. */
  lemma {:induction false} ResolveIdentity(xs: seq<string>, rooted: bool, acc: seq<string>)
    requires Canonical(acc + xs, rooted)
    ensures Resolve(xs, rooted, acc) == acc + xs
    decreases |xs|
  {
    if xs == [] {
      assert acc + xs == acc;
    } else {
      var c := xs[0];
      var all := acc + xs;
      assert all[|acc|] == c;
      if c == ".." && acc != [] {
        assert all[|acc| - 1] == acc[|acc| - 1];
      }
      assert (acc + [c]) + xs[1..] == all;
      ResolveIdentity(xs[1..], rooted, acc + [c]);
    }
  }

  function Empties(n: nat): (e: seq<string>)
    ensures |e| == n && forall i :: 0 <= i < n ==> e[i] == ""
  {
    seq(n, i => "")
  }

  lemma {:induction false} ResolveSkipsEmpties(n: nat, s: seq<string>, rooted: bool, stack: seq<string>)
    ensures Resolve(Empties(n) + s, rooted, stack) == Resolve(s, rooted, stack)
  {
    if n == 0 {
      assert Empties(n) + s == s;
    } else {
      var e := Empties(n) + s;
      assert e[0] == "";
      assert e[1..] == Empties(n - 1) + s;
      ResolveSkipsEmpties(n - 1, s, rooted, stack);
    }
  }

  lemma SlashesCons(n: nat)
    ensures Repeat('/', n + 1) == "/" + Repeat('/', n)
  {
    var a, b := Repeat('/', n + 1), "/" + Repeat('/', n);
    assert |a| == |b|;
    assert forall i :: 0 <= i < |a| ==> a[i] == b[i];
  }

  lemma {:induction false} JoinEmpties(n: nat)
    ensures Join(Empties(n + 1), '/') == Repeat('/', n)
  {
    if n > 0 {
      assert Empties(n + 1)[1..] == Empties(n);
      JoinEmpties(n - 1);
      SlashesCons(n - 1);
    }
  }

  lemma {:induction false} JoinLeadingEmpties(k: nat, s: seq<string>)
    requires s != []
    ensures Join(Empties(k) + s, '/') == Repeat('/', k) + Join(s, '/')
  {
    if k == 0 {
      assert Empties(0) + s == s;
    } else {
      var e := Empties(k) + s;
      assert e[0] == "" && e[1..] == Empties(k - 1) + s;
      JoinLeadingEmpties(k - 1, s);
      SlashesCons(k - 1);
    }
  }

  lemma JoinHead(s: seq<string>)
    requires s != [] && s[0] != ""
    ensures |Join(s, '/')| >= 1 && Join(s, '/')[0] == s[0][0]
  {
  }

  /** The pieces a normalised rooted-or-relative path splits into. */
  function FormParts(k: nat, s: seq<string>): seq<string>
  {
    if s == [] then Empties(k + 1) else Empties(k) + s
  }

  lemma SplitOfForm(k: nat, s: seq<string>)
    requires Canonical(s, k > 0)
    ensures Split(Repeat('/', k) + Join(s, '/'), '/') == FormParts(k, s)
  {
    var parts := FormParts(k, s);
    if s == [] {
      JoinEmpties(k);
      assert Repeat('/', k) + Join(s, '/') == Repeat('/', k);
    } else {
      JoinLeadingEmpties(k, s);
    }
    assert forall i :: 0 <= i < |parts| ==> '/' !in parts[i];
    SplitJoin(parts, '/');
  }

  lemma InitialOfForm(k: nat, s: seq<string>)
    requires k <= 2 && Canonical(s, k > 0)
    requires Repeat('/', k) + Join(s, '/') != ""
    ensures InitialSlashes(Repeat('/', k) + Join(s, '/')) == k
  {
    var q := Repeat('/', k) + Join(s, '/');
    if s != [] {
      JoinHead(s);
      assert s[0][0] in s[0];
      assert q[k] == s[0][0] && q[k] != '/';
      assert q[..k] == Repeat('/', k);
      if k == 2 {
        assert q[..2] == "//";
        assert q[..3] != "///" by {
          assert q[..3][2] == q[2];
        }
      }
      if k == 1 {
        assert q[..1] == "/";
        assert q[..2] != "//" by {
          assert q[..2][1] == q[1];
        }
      }
    } else {
      assert q == Repeat('/', k);
      if k == 2 {
        assert q[..2] == "//";
      }
      if k == 1 {
        assert q[..1] == "/";
      }
    }
  }

  lemma ResolveOfForm(k: nat, s: seq<string>, rooted: bool)
    requires Canonical(s, rooted)
    ensures Resolve(FormParts(k, s), rooted, []) == s
  {
    if s == [] {
      ResolveSkipsEmpties(k + 1, [], rooted, []);
      assert Empties(k + 1) + [] == FormParts(k, s);
    } else {
      ResolveSkipsEmpties(k, s, rooted, []);
      assert [] + s == s;
      ResolveIdentity(s, rooted, []);
    }
  }

  lemma NormPathOfDot()
    ensures NormPath(".") == "."
  {
    SplitNoSep(".", '/');
    assert Resolve(["."], false, []) == [] by {
      assert ["."][1..] == [];
    }
  }

  lemma InitialSlashesAtMostTwo(path: string)
    ensures InitialSlashes(path) <= 2
  {
  }

  /** Normalising a normalised path changes nothing. */
  lemma NormPathIdempotent(path: string)
    ensures NormPath(NormPath(path)) == NormPath(path)
  {
    NormPathOfDot();
    if path != "" {
      var k := InitialSlashes(path);
      var s := Resolve(Split(path, '/'), k > 0, []);
      ResolveCanonical(Split(path, '/'), k > 0, []);
      var q := Repeat('/', k) + Join(s, '/');
      if q != "" {
        InitialSlashesAtMostTwo(path);
        SplitOfForm(k, s);
        InitialOfForm(k, s);
        ResolveOfForm(k, s, k > 0);
      }
    }
  }

  // ---------------------------------------------------------------- dirname

  /** One past the index of the last slash, or 0 when there is none
      (`p.rfind('/') + 1`). */
  function AfterLastSlash(p: string): (i: nat)
    ensures i <= |p|
    ensures i > 0 ==> p[i - 1] == '/'
    ensures forall k :: i <= k < |p| ==> p[k] != '/'
  {
    if p == [] then 0
    else if p[|p| - 1] == '/' then |p|
    else AfterLastSlash(p[..|p| - 1])
  }

  predicate AllSlashes(s: string)
  {
    forall i :: 0 <= i < |s| ==> s[i] == '/'
  }

  function RStripSlashes(s: string): (r: string)
    ensures |r| <= |s| && s[..|r|] == r
    ensures forall k :: |r| <= k < |s| ==> s[k] == '/'
    ensures r != [] ==> r[|r| - 1] != '/'
  {
    if s == [] || s[|s| - 1] != '/' then s else RStripSlashes(s[..|s| - 1])
  }

  /** `os.path.dirname` on POSIX: everything before the last slash, with
      trailing slashes stripped unless the head is all slashes. */
  function DirName(p: string): string
  {
    var head := p[..AfterLastSlash(p)];
    if head != "" && !AllSlashes(head) then RStripSlashes(head) else head
  }

  // ---------------------------------------------------------------- the filter

  /** The three tests of `_filter_files_for_restore` on normalised paths, as
      written. */
  predicate Selected(file: string, source: string, includeSubdirs: bool)
  {
    file == source
    || (includeSubdirs && StartsWith(file, source + "/"))
    || (!includeSubdirs && DirName(file) == source)
  }

  /** `_filter_files_for_restore`: the snapshot entries (keyed by their
      original paths) whose normalised path passes the tests, with the
      corrected subtree test `Below` (see `RootSubtreeExcluded`). */
  method FilterFilesForRestore<M>(snapshotFiles: map<string, M>, sourcePath: string, includeSubdirs: bool)
    returns (filtered: map<string, M>)
    ensures filtered.Keys <= snapshotFiles.Keys
    ensures forall p :: p in filtered ==> filtered[p] == snapshotFiles[p]
    ensures forall p :: p in snapshotFiles ==>
              (p in filtered <==> SelectedIntended(NormPath(p), NormPath(sourcePath), includeSubdirs))
  {
    filtered := map[];
    var source := NormPath(sourcePath);
    var remaining := snapshotFiles.Keys;
    while remaining != {}
      invariant remaining <= snapshotFiles.Keys
      invariant filtered.Keys <= snapshotFiles.Keys - remaining
      invariant forall p :: p in filtered ==> filtered[p] == snapshotFiles[p]
      invariant forall p :: p in snapshotFiles.Keys - remaining ==>
                  (p in filtered <==> SelectedIntended(NormPath(p), source, includeSubdirs))
      decreases |remaining|
    {
      var filePath :| filePath in remaining;
      var metadata := snapshotFiles[filePath];
      var fileNorm := NormPath(filePath);
      if fileNorm == source {
        filtered := filtered[filePath := metadata];
      } else if includeSubdirs && Below(fileNorm, source) {
        filtered := filtered[filePath := metadata];
      } else if !includeSubdirs && DirName(fileNorm) == source {
        filtered := filtered[filePath := metadata];
      }
      remaining := remaining - {filePath};
    }
  }

  /** An entry whose normalised path is the source is always restored. */
  lemma ExactMatchSelected(file: string, source: string, includeSubdirs: bool)
    requires file == source
    ensures Selected(file, source, includeSubdirs)
  {
  }

  /** With subdirectories, another path is restored exactly when it continues
      the source with a slash; a sibling that only shares a string prefix is
      not. */
  lemma SubtreeSelection(file: string, source: string)
    ensures file != source ==> (Selected(file, source, true) <==> StartsWith(file, source + "/"))
    ensures !Selected("/srv/www-old/index.html", "/srv/www", true)
    ensures !SelectedIntended("/srv/www-old/index.html", "/srv/www", true)
  {
    var sib := "/srv/www-old/index.html";
    assert sib[..|"/srv/www" + "/"|] != "/srv/www" + "/" by {
      assert sib[8] == '-';
      assert ("/srv/www" + "/")[8] == '/';
    }
    assert !AllSlashes("/srv/www") by {
      assert "/srv/www"[1] == 's';
    }
  }

  /** Without subdirectories, another path is restored exactly when its
      directory is the source. */
  lemma ChildSelection(file: string, source: string)
    ensures file != source ==> (Selected(file, source, false) <==> DirName(file) == source)
  {
  }

  // ---------------------------------------------------------------- finding

  /** With subdirectories, a source that is the root selects nothing below it:
      "/etc" is not under "/" because it does not start with "//", although
      the same entry is restored without subdirectories. */
  lemma RootSubtreeExcluded()
    ensures NormPath("/") == "/" && DirName("/etc") == "/"
    ensures !Selected("/etc", "/", true) && Selected("/etc", "/", false)
  {
    assert Split("/", '/') == ["", ""] by {
      assert "/"[1..] == "";
    }
    assert Resolve(["", ""], true, []) == [] by {
      assert ["", ""][1..] == [""];
      assert [""][1..] == [];
    }
    assert "/etc"[..AfterLastSlash("/etc")] == "/" by {
      assert AfterLastSlash("/etc") == 1 by {
        assert "/etc"[..3] == "/et";
        assert "/et"[..2] == "/e";
        assert "/e"[..1] == "/";
      }
    }
  }

  /** The evident intent of the subtree test: `file` lies strictly below
      `source`, also when `source` is the root (made of slashes only). */
  predicate Below(file: string, source: string)
  {
    StartsWith(file, source + "/")
    || (source != "" && AllSlashes(source) && StartsWith(file, source) && file != source)
  }

  /** With the intended test, every direct child of a (non-empty, as
      `normpath` guarantees) source is also in its subtree. */
  lemma ChildIsBelow(file: string, source: string)
    requires source != "" && DirName(file) == source && file != source
    ensures Below(file, source)
  {
    var i := AfterLastSlash(file);
    var head := file[..i];
    if head != "" && !AllSlashes(head) {
      var r := RStripSlashes(head);
      assert r == source;
      assert |r| < |head| by {
        assert head[|head| - 1] == '/';
      }
      assert file[..|r| + 1] == r + "/" by {
        assert file[..|r|] == head[..|r|];
        assert file[|r|] == head[|r|];
      }
    } else {
      assert file[..|head|] == head;
    }
  }

  /** The corrected selection: the subtree test is `Below`. */
  predicate SelectedIntended(file: string, source: string, includeSubdirs: bool)
  {
    file == source
    || (includeSubdirs && Below(file, source))
    || (!includeSubdirs && DirName(file) == source)
  }

  /** The corrected selection restores, with subdirectories, everything it
      restores without them, and it differs from the code as written only for
      root sources. */
  lemma SelectedIntendedSpec(file: string, source: string)
    requires source != ""
    ensures SelectedIntended(file, source, false) ==> SelectedIntended(file, source, true)
    ensures !AllSlashes(source) ==>
              forall inc :: SelectedIntended(file, source, inc) == Selected(file, source, inc)
    ensures SelectedIntended("/etc", "/", true)
  {
    if DirName(file) == source && file != source {
      ChildIsBelow(file, source);
    }
    assert StartsWith("/etc", "/");
  }
}
