/**
 * The path arithmetic of the scheduler: the session name a notebook's log is
 * keyed by, the log file's path, and the working directory handed to the
 * engine. Each function follows the POSIX flavour of Python's os.path.
 */
module Paths {

  const SEP: char := '/'
  const EXT_SEP: char := '.'

  /** Directory every session's log file is created in. */
  const LOG_DIR: string := "logs"

  /** Index of the last occurrence of `c` in `s`, or -1 when there is none (str.rfind). */
  function RFind(s: string, c: char): (r: int)
    ensures -1 <= r < |s|
    ensures r >= 0 ==> s[r] == c
    ensures forall j :: r < j < |s| ==> s[j] != c
  {
    if s == [] then -1
    else if s[|s| - 1] == c then |s| - 1
    else RFind(s[..|s| - 1], c)
  }

  predicate AllSep(s: string) {
    forall k :: 0 <= k < |s| ==> s[k] == SEP
  }

  predicate AllDots(s: string) {
    forall k :: 0 <= k < |s| ==> s[k] == EXT_SEP
  }

  /** os.path.basename: the longest suffix of `p` holding no separator. */
  function Basename(p: string): (b: string)
    ensures SEP !in b
    ensures |b| <= |p| && p[|p| - |b|..] == b
    ensures |b| == |p| || p[|p| - |b| - 1] == SEP
  {
    p[RFind(p, SEP) + 1..]
  }

  /** str.rstrip('/'): drops every trailing separator. */
  function RStripSep(s: string): (r: string)
    ensures |r| <= |s| && s[..|r|] == r
    ensures r == [] || r[|r| - 1] != SEP
    ensures AllSep(s[|r|..])
  {
    if s != [] && s[|s| - 1] == SEP then
      var r := RStripSep(s[..|s| - 1]);
      assert s[|r|..] == s[..|s| - 1][|r|..] + [SEP];
      r
    else s
  }

  /**
   * os.path.dirname: everything up to the last separator, with the trailing
   * separators dropped unless nothing but separators is left. What lies
   * between the directory and the base name is separators only.
   */
  function Dirname(p: string): (d: string)
    ensures |d| + |Basename(p)| <= |p| && p[..|d|] == d
    ensures AllSep(p[|d|..|p| - |Basename(p)|])
    ensures SEP in p && !AllSep(p[..RFind(p, SEP)]) ==> d != [] && d[|d| - 1] != SEP
    ensures AllSep(p[..RFind(p, SEP) + 1]) ==> d == p[..RFind(p, SEP) + 1]
  {
    var head := p[..RFind(p, SEP) + 1];
    if head != [] && !AllSep(head) then RStripSep(head) else head
  }

  /**
   * os.path.splitext: splits off the extension, the part from the last dot of
   * the last path component onward. Dots that lead the component start no
   * extension.
   */
  function SplitExt(p: string): (r: (string, string))
    ensures r.0 + r.1 == p
    ensures r.1 != [] ==> r.1[0] == EXT_SEP && EXT_SEP !in r.1[1..] && SEP !in r.1
  {
    var sepIndex := RFind(p, SEP);
    var dotIndex := RFind(p, EXT_SEP);
    if dotIndex > sepIndex && !AllDots(p[sepIndex + 1..dotIndex]) then
      (p[..dotIndex], p[dotIndex..])
    else
      (p, [])
  }

  /**
   * The extension splitext takes off is there exactly when the last path
   * component has a non-dot character before its last dot: with one, the
   * root keeps that character; without one, every dot of the component is
   * preceded only by dots and nothing is split off.
   */
  lemma SplitExtCharacterized(p: string)
    ensures var r := SplitExt(p);
      r.1 != [] ==> exists k :: RFind(p, SEP) < k < |r.0| && r.0[k] != EXT_SEP
    ensures var r := SplitExt(p);
      r.1 == [] ==>
        forall i :: RFind(p, SEP) < i < |p| && p[i] == EXT_SEP ==> AllDots(p[RFind(p, SEP) + 1..i])
  {
    var sepIndex := RFind(p, SEP);
    var dotIndex := RFind(p, EXT_SEP);
    var r := SplitExt(p);
    if r.1 != [] {
      var name := p[sepIndex + 1..dotIndex];
      var k :| 0 <= k < |name| && name[k] != EXT_SEP;
      assert r.0[sepIndex + 1 + k] == name[k];
    } else if dotIndex > sepIndex {
      var name := p[sepIndex + 1..dotIndex];
      assert AllDots(name);
      forall i | sepIndex < i < |p| && p[i] == EXT_SEP
        ensures AllDots(p[sepIndex + 1..i])
      {
        assert i <= dotIndex;
        var prefix := p[sepIndex + 1..i];
        forall k | 0 <= k < |prefix| ensures prefix[k] == EXT_SEP {
          assert prefix[k] == p[sepIndex + 1 + k] == name[k];
        }
      }
    }
  }

  /** os.path.join of two components: an absolute second component replaces the first. */
  function Join(a: string, b: string): (r: string)
    ensures b != [] && b[0] == SEP ==> r == b
    ensures (b == [] || b[0] != SEP) ==>
      |a| + |b| <= |r| <= |a| + |b| + 1 && r[..|a|] == a && r[|r| - |b|..] == b &&
      (|r| == |a| + |b| || r[|a|] == SEP)
    ensures (b == [] || b[0] != SEP) && a != [] ==> r[|r| - |b| - 1] == SEP
    ensures (b == [] || b[0] != SEP) ==> (|r| == |a| + |b| <==> a == [] || a[|a| - 1] == SEP)
  {
    if b != [] && b[0] == SEP then b
    else if a == [] || a[|a| - 1] == SEP then a + b
    else a + [SEP] + b
  }

  /** The session name of a notebook: its base name without the extension. */
  function SessionName(path: string): (name: string)
    ensures SEP !in name
    ensures |name| <= |Basename(path)| && Basename(path)[..|name|] == name
  {
    SplitExt(Basename(path)).0
  }

  /** The file a session logs to: `<LOG_DIR>/<name>_<timestamp>.log`. */
  function LogFilePath(name: string, timestamp: string): string {
    Join(LOG_DIR, name + "_" + timestamp + ".log")
  }

  /** The base name of a path that ends in `/` followed by `name` (or is just `name`). */
  lemma BasenameAfterSep(dir: string, name: string)
    requires dir == [] || dir[|dir| - 1] == SEP
    requires SEP !in name
    ensures Basename(dir + name) == name
  {
    var p := dir + name;
    forall j | |dir| <= j < |p| ensures p[j] != SEP {
      assert p[j] == name[j - |dir|];
    }
    if dir != [] {
      assert p[|dir| - 1] == SEP;
    }
    assert RFind(p, SEP) == |dir| - 1;
    assert p[|dir|..] == name;
  }

  /** Splitting a separator-free `stem.ext` whose stem is not all dots takes off `.ext`. */
  lemma SplitExtOfFileName(stem: string, ext: string)
    requires SEP !in stem && SEP !in ext && EXT_SEP !in ext
    requires !AllDots(stem)
    ensures SplitExt(stem + [EXT_SEP] + ext) == (stem, [EXT_SEP] + ext)
  {
    var p := stem + [EXT_SEP] + ext;
    forall j | 0 <= j < |p| ensures p[j] != SEP {
      if j < |stem| { assert p[j] == stem[j]; } else if j > |stem| { assert p[j] == ext[j - |stem| - 1]; }
    }
    assert RFind(p, SEP) == -1;
    forall j | |stem| < j < |p| ensures p[j] != EXT_SEP {
      assert p[j] == ext[j - |stem| - 1];
    }
    assert p[|stem|] == EXT_SEP;
    assert RFind(p, EXT_SEP) == |stem|;
    assert p[0..|stem|] == stem && p[..|stem|] == stem;
    assert p[|stem|..] == [EXT_SEP] + ext;
  }

  /**
   * The session name of `dir/stem.ext` is `stem`: the directory and the
   * extension are dropped.
   */
  lemma SessionNameOfNotebookPath(dir: string, stem: string, ext: string)
    requires dir == [] || dir[|dir| - 1] == SEP
    requires SEP !in stem && SEP !in ext && EXT_SEP !in ext
    requires !AllDots(stem)
    ensures SessionName(dir + stem + [EXT_SEP] + ext) == stem
  {
    var file := stem + [EXT_SEP] + ext;
    assert SEP !in file by {
      forall j | 0 <= j < |file| ensures file[j] != SEP {
        if j < |stem| { assert file[j] == stem[j]; } else if j > |stem| { assert file[j] == ext[j - |stem| - 1]; }
      }
    }
    assert dir + stem + [EXT_SEP] + ext == dir + file;
    BasenameAfterSep(dir, file);
    SplitExtOfFileName(stem, ext);
  }

  /** A base name made only of leading dots and dot-free text has no extension. */
  lemma HiddenFileKeepsName(dots: string, rest: string)
    requires dots != [] && AllDots(dots)
    requires SEP !in rest && EXT_SEP !in rest
    ensures SessionName(dots + rest) == dots + rest
  {
    var p := dots + rest;
    assert SEP !in p by {
      forall j | 0 <= j < |p| ensures p[j] != SEP {
        if j < |dots| { assert p[j] == dots[j]; } else { assert p[j] == rest[j - |dots|]; }
      }
    }
    assert Basename(p) == p by {
      assert [] + p == p;
      BasenameAfterSep([], p);
    }
    var dotIndex := RFind(p, EXT_SEP);
    assert 0 <= dotIndex < |dots| by {
      assert p[|dots| - 1] == dots[|dots| - 1] == EXT_SEP;
      forall j | |dots| <= j < |p| ensures p[j] != EXT_SEP {
        assert p[j] == rest[j - |dots|];
      }
    }
    assert RFind(p, SEP) == -1;
    assert AllDots(p[0..dotIndex]) by {
      var front := p[0..dotIndex];
      forall k | 0 <= k < |front| ensures front[k] == EXT_SEP {
        assert front[k] == p[k] == dots[k];
      }
    }
  }

  /** The default notebooks' sessions are `test_nb_1` and `test_nb_2`. */
  lemma DefaultSessionNames()
    ensures SessionName("notebooks/test_nb_1.ipynb") == "test_nb_1"
    ensures SessionName("notebooks/test_nb_2.ipynb") == "test_nb_2"
  {
    assert !AllDots("test_nb_1") by { assert "test_nb_1"[0] != EXT_SEP; }
    assert !AllDots("test_nb_2") by { assert "test_nb_2"[0] != EXT_SEP; }
    assert "notebooks/test_nb_1.ipynb" == "notebooks/" + "test_nb_1" + [EXT_SEP] + "ipynb";
    assert "notebooks/test_nb_2.ipynb" == "notebooks/" + "test_nb_2" + [EXT_SEP] + "ipynb";
    SessionNameOfNotebookPath("notebooks/", "test_nb_1", "ipynb");
    SessionNameOfNotebookPath("notebooks/", "test_nb_2", "ipynb");
  }

  /**
   * For a name that does not start with a separator (every session name),
   * the log file is `logs/<name>_<timestamp>.log`.
   */
  lemma LogFilePathIsInLogDir(name: string, timestamp: string)
    requires name == [] || name[0] != SEP
    ensures LogFilePath(name, timestamp) == LOG_DIR + "/" + name + "_" + timestamp + ".log"
  {
  }

  /** A session's log file is `logs/<session name>_<timestamp>.log`. */
  lemma SessionLogFilePath(path: string, timestamp: string)
    ensures LogFilePath(SessionName(path), timestamp)
         == LOG_DIR + "/" + SessionName(path) + "_" + timestamp + ".log"
  {
    var name := SessionName(path);
    if name != [] {
      assert name[0] in name;
    }
    LogFilePathIsInLogDir(name, timestamp);
  }

  /**
   * With timestamps of one fixed width (as strftime's "%Y%m%d_%H%M%S" gives),
   * the log file path determines both the session name and the timestamp.
   */
  lemma LogFilePathDeterminesSession(n1: string, t1: string, n2: string, t2: string)
    requires n1 == [] || n1[0] != SEP
    requires n2 == [] || n2[0] != SEP
    requires |t1| == |t2|
    requires LogFilePath(n1, t1) == LogFilePath(n2, t2)
    ensures n1 == n2 && t1 == t2
  {
    LogFilePathIsInLogDir(n1, t1);
    LogFilePathIsInLogDir(n2, t2);
    var p1 := LOG_DIR + "/" + n1 + "_" + t1 + ".log";
    var p2 := LOG_DIR + "/" + n2 + "_" + t2 + ".log";
    assert |n1| == |n2|;
    assert n1 == p1[5..5 + |n1|];
    assert n2 == p2[5..5 + |n2|];
    assert t1 == p1[6 + |n1|..6 + |n1| + |t1|];
    assert t2 == p2[6 + |n2|..6 + |n2| + |t2|];
  }

  /** The working directory handed to the engine for `dir/name` is `dir`. */
  lemma DirnameOfNotebookPath(dir: string, name: string)
    requires dir != [] && dir[|dir| - 1] != SEP
    requires SEP !in name
    ensures Dirname(dir + [SEP] + name) == dir
  {
    var p := dir + [SEP] + name;
    forall j | |dir| < j < |p| ensures p[j] != SEP {
      assert p[j] == name[j - |dir| - 1];
    }
    assert p[|dir|] == SEP;
    assert RFind(p, SEP) == |dir|;
    var head := p[..|dir| + 1];
    assert head == dir + [SEP];
    assert !AllSep(head) by { assert head[|dir| - 1] != SEP; }
    assert RStripSep(head) == dir;
  }
}
