/** Which project names the garbage collector accepts, component by component
    (src/runner/gc_orchestrator.py, validate_project_name). */
module GcNames {
  import opened Prelude
  import opened TieredGc

  /** The place of the first slash, or the length. */
  function FirstSlash(s: string): (k: nat)
    ensures k <= |s| && '/' !in s[..k] && (k < |s| ==> s[k] == '/')
  {
    if s == "" then 0
    else if s[0] == '/' then 0
    else
      var k := FirstSlash(s[1..]) + 1;
      assert s[..k] == [s[0]] + s[1..][..k - 1];
      k
  }

  /** The components of a path. */
  function Parts(s: string): (r: seq<string>)
    ensures forall part :: part in r ==> '/' !in part
    decreases |s|
  {
    var k := FirstSlash(s);
    if k == |s| then
      assert s[..k] == s;
      [s]
    else [s[..k]] + Parts(s[k + 1..])
  }

  // ---------------------------------------------------------------- components

  /** A string that holds another at some place has its characters there. */
  lemma At(s: string, i: nat, t: string)
    requires i <= |s| && StartsWith(s[i..], t)
    ensures i + |t| <= |s| && forall j :: 0 <= j < |t| ==> s[i + j] == t[j]
  {
    assert forall j :: 0 <= j < |t| ==> s[i..][..|t|][j] == s[i + j];
  }

  lemma StartsAfterSlash(head: string, tail: string, part: string)
    requires '/' !in head && '/' !in part
    ensures StartsWith(head + "/" + tail, part + "/") <==> part == head
  {
    var s := head + "/" + tail;
    if part == head {
      assert s[..|part| + 1] == part + "/";
    }
    if StartsWith(s, part + "/") {
      SameHead(head, tail, part);
    }
  }

  lemma SameHead(head: string, tail: string, part: string)
    requires '/' !in head && '/' !in part && StartsWith(head + "/" + tail, part + "/")
    ensures part == head
  {
    var s := head + "/" + tail;
    assert s[0..] == s;
    At(s, 0, part + "/");
    assert s[|head|] == '/' && s[|part|] == (part + "/")[|part|] == '/';
    assert forall j :: 0 <= j < |part| ==> s[j] == (part + "/")[j] == part[j];
    assert forall j :: 0 <= j < |head| ==> s[j] == head[j];
  }

  /** The first slash of the whole is the one after the head. */
  lemma SlashNotInHead(head: string, tail: string, i: nat)
    requires '/' !in head && i < |head + "/" + tail| && (head + "/" + tail)[i] == '/'
    ensures i >= |head|
  {
    assert forall j :: 0 <= j < |head| ==> (head + "/" + tail)[j] == head[j];
  }

  lemma EndsAfterSlash(head: string, tail: string, part: string)
    requires '/' !in head && '/' !in part
    ensures EndsWith(head + "/" + tail, "/" + part) <==> tail == part || EndsWith(tail, "/" + part)
  {
    var s := head + "/" + tail;
    if tail == part { assert s[|head|..] == "/" + part; }
    if EndsWith(tail, "/" + part) {
      assert s[|s| - |part| - 1..] == tail[|tail| - |part| - 1..];
    }
    if EndsWith(s, "/" + part) {
      var i := |s| - |part| - 1;
      assert s[i] == s[i..][0] == '/';
      SlashNotInHead(head, tail, i);
      if i == |head| {
        assert s[i..][1..] == tail && ("/" + part)[1..] == part;
      } else {
        assert s[i..] == tail[|tail| - |part| - 1..];
      }
    }
  }

  lemma ContainsAfterSlash(head: string, tail: string, part: string)
    requires '/' !in head && '/' !in part
    ensures Contains(head + "/" + tail, "/" + part + "/") <==>
            StartsWith(tail, part + "/") || Contains(tail, "/" + part + "/")
  {
    var s, middle := head + "/" + tail, "/" + part + "/";
    if StartsWith(tail, part + "/") {
      assert s[|head|..] == "/" + tail;
      assert s[|head|..][..|middle|] == "/" + tail[..|part| + 1] == middle;
    }
    if Contains(tail, middle) {
      var i :| 0 <= i <= |tail| && StartsWith(tail[i..], middle);
      assert s[|head| + 1 + i..] == tail[i..];
    }
    if Contains(s, middle) {
      var i :| 0 <= i <= |s| && StartsWith(s[i..], middle);
      MiddleLater(head, tail, part, i);
    }
  }

  lemma MiddleLater(head: string, tail: string, part: string, i: nat)
    requires '/' !in head && '/' !in part
    requires var s := head + "/" + tail; i <= |s| && StartsWith(s[i..], "/" + part + "/")
    ensures StartsWith(tail, part + "/") || Contains(tail, "/" + part + "/")
  {
    var s, middle := head + "/" + tail, "/" + part + "/";
    At(s, i, middle);
    assert s[i + 0] == middle[0] == '/';
    SlashNotInHead(head, tail, i);
    if i == |head| {
      assert s[i..] == "/" + tail;
      assert tail[..|part| + 1] == ("/" + tail)[..|middle|][1..] == middle[1..] == part + "/";
    } else {
      assert s[i..] == tail[i - |head| - 1..];
    }
  }

  lemma SlashWithin(s: string, i: nat, t: string)
    requires i <= |s| && StartsWith(s[i..], t) && '/' in t
    ensures '/' in s
  {
    At(s, i, t);
    var j :| 0 <= j < |t| && t[j] == '/';
    assert s[i + j] == '/';
  }

  lemma HoldsSlash(s: string, t: string)
    requires '/' in t
    ensures StartsWith(s, t) || EndsWith(s, t) || Contains(s, t) ==> '/' in s
  {
    assert s[0..] == s;
    if StartsWith(s, t) { SlashWithin(s, 0, t); }
    if EndsWith(s, t) { SlashWithin(s, |s| - |t|, t); }
    if Contains(s, t) {
      var i :| 0 <= i <= |s| && StartsWith(s[i..], t);
      SlashWithin(s, i, t);
    }
  }

  lemma NoSlashNoParts(s: string, part: string)
    requires '/' !in s
    ensures HasPart(s, part) <==> s == part
  {
    assert (part + "/")[|part|] == '/' && ("/" + part)[0] == '/' && ("/" + part + "/")[0] == '/';
    HoldsSlash(s, part + "/");
    HoldsSlash(s, "/" + part);
    HoldsSlash(s, "/" + part + "/");
  }

  /** The string tests of the code find exactly the components. */
  lemma {:induction false} HasPartExactly(s: string, part: string)
    requires '/' !in part
    ensures HasPart(s, part) <==> part in Parts(s)
    decreases |s|
  {
    var k := FirstSlash(s);
    if k == |s| {
      assert s[..k] == s;
      NoSlashNoParts(s, part);
    } else {
      var head, tail := s[..k], s[k + 1..];
      assert s == head + "/" + tail;
      HasPartExactly(tail, part);
      StartsAfterSlash(head, tail, part);
      EndsAfterSlash(head, tail, part);
      ContainsAfterSlash(head, tail, part);
      assert s[k] == '/';
    }
  }

  // ---------------------------------------------------------------- accepted names

  /** A name is accepted if and only if, stripped, it is not ".", has no backslash, and has no empty
      component and no "..": it never leads out of the directory of the repositories. */
  lemma ValidNameExactly(name: Name)
    ensures ValidName(name) <==>
            var s := Strip(name); s != "." && '\\' !in s && "" !in Parts(s) && ".." !in Parts(s)
  {
    var s := Strip(name);
    HasPartExactly(s, "");
    HasPartExactly(s, "..");
    assert "" + "/" == "/" && "/" + "" == "/" && "/" + "" + "/" == "//";
  }

  lemma DotIsOnePart()
    ensures Parts(".") == ["."] && "." in Parts(".")
  {
    assert FirstSlash(".") == 1;
    assert Parts(".")[0] == ".";
  }

  /** The documentation of the check promises names without "." components as well. */
  predicate AsPromised(name: Name) {
    var s := Strip(name);
    '\\' !in s && forall part :: part in Parts(s) ==> part != "" && part != "." && part != ".."
  }

  /** The promise is kept by every accepted name but those of several components, one of them ".";
      and a name as promised is accepted. */
  lemma PromiseKeptExactly(name: Name)
    ensures AsPromised(name) ==> ValidName(name)
    ensures ValidName(name) ==> (AsPromised(name) <==> "." !in Parts(Strip(name)))
  {
    ValidNameExactly(name);
    DotIsOnePart();
  }

  /** Such names exist: the directory of the repositories itself under another name. */
  lemma DotsAreAccepted()
    ensures ValidName("./.") && Parts(Strip("./.")) == [".", "."]
  {
    var s := "./.";
    assert s[..2] == "./" && Strip(s) == s;
    DotIsOnePart();
    assert FirstSlash(s) == 1 && s[..1] == "." && s[2..] == ".";
    assert Parts(s) == [".", "."];
    ValidNameExactly(s);
  }
}
