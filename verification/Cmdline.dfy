/** The package name that a process's own command line carries. */
module Cmdline {
  import opened Rules
  import opened EngineState
  import opened Packages

  const NUL := '\0'

  /** The text before the first occurrence of a character, all of it when there is none. */
  function Before(s: string, c: char): (r: string)
    ensures r <= s && c !in r
    ensures r == s || s[|r|] == c
  {
    if s == "" || s[0] == c then ""
    else
      var rest := Before(s[1..], c);
      assert s == [s[0]] + s[1..];
      [s[0]] + rest
  }

  predicate IsSpace(c: char) { c == ' ' || '\t' <= c <= '\r' }

  function TrimStart(s: string): (r: string)
    ensures r == "" || !IsSpace(r[0])
    ensures forall c | c in r :: c in s
    ensures s != "" && !IsSpace(s[0]) ==> r == s
  {
    if s != "" && IsSpace(s[0]) then TrimStart(s[1..]) else s
  }

  function TrimEnd(s: string): (r: string)
    ensures r <= s
    ensures r == "" || !IsSpace(r[|r| - 1])
    ensures s != "" && !IsSpace(s[|s| - 1]) ==> r == s
  {
    if s != "" && IsSpace(s[|s| - 1]) then TrimEnd(s[..|s| - 1]) else s
  }

  function Trim(s: string): string { TrimEnd(TrimStart(s)) }

  /** The first argument, without a helper suffix and surrounding white space. */
  function PkgFromCmdline(raw: string): Option<string> {
    var argv0 := Before(raw, NUL);
    if argv0 == "" then None
    else
      var pkg := Trim(Before(argv0, ':'));
      if pkg == "" then None else Some(pkg)
  }

  /** A name that can stand in a command line: nothing that separates or surrounds names. */
  predicate CleanName(pkg: string) {
    && pkg != ""
    && ':' !in pkg && NUL !in pkg
    && !IsSpace(pkg[0]) && !IsSpace(pkg[|pkg| - 1])
  }

  /** Whatever the command line, a name read from it is clean. */
  lemma NamesAreClean(raw: string)
    ensures PkgFromCmdline(raw).Some? ==> CleanName(PkgFromCmdline(raw).value)
  {
    var name := Before(Before(raw, NUL), ':');
    var start, pkg := TrimStart(name), Trim(name);
    assert forall c | c in pkg :: c in start;
    assert forall c | c in name :: c in Before(raw, NUL);
    if pkg != "" {
      assert pkg[0] == start[0];
    }
  }

  lemma {:induction false} BeforeSeparator(s: string, c: char, rest: string)
    requires c !in s
    ensures Before(s + [c] + rest, c) == s
    ensures Before(s, c) == s
  {
    if s == "" {
    } else {
      assert (s + [c] + rest)[1..] == s[1..] + [c] + rest;
      assert s == [s[0]] + s[1..];
      BeforeSeparator(s[1..], c, rest);
    }
  }

  lemma TrimOfClean(pkg: string)
    requires CleanName(pkg)
    ensures Trim(pkg) == pkg
  {}

  predicate AllSpace(s: string) {
    forall c | c in s :: IsSpace(c)
  }

  lemma {:induction false} TrimStartOf(before: string, rest: string)
    requires AllSpace(before) && rest != "" && !IsSpace(rest[0])
    ensures TrimStart(before + rest) == rest
  {
    if before == "" {
      assert before + rest == rest;
    } else {
      assert (before + rest)[0] == before[0] && before[0] in before;
      assert (before + rest)[1..] == before[1..] + rest;
      TrimStartOf(before[1..], rest);
    }
  }

  lemma {:induction false} TrimEndOf(pkg: string, after: string)
    requires AllSpace(after) && pkg != "" && !IsSpace(pkg[|pkg| - 1])
    ensures TrimEnd(pkg + after) == pkg
  {
    if after == "" {
      assert pkg + after == pkg;
    } else {
      var n := |after| - 1;
      assert (pkg + after)[|pkg| + n] == after[n] && after[n] in after;
      assert (pkg + after)[..|pkg| + n] == pkg + after[..n];
      TrimEndOf(pkg, after[..n]);
    }
  }

  /** White space around a name, and nothing else, is taken off. */
  lemma TrimTakesOffSpace(before: string, pkg: string, after: string)
    requires AllSpace(before) && AllSpace(after) && CleanName(pkg)
    ensures Trim(before + pkg + after) == pkg
  {
    assert before + pkg + after == before + (pkg + after);
    assert (pkg + after)[0] == pkg[0];
    TrimStartOf(before, pkg + after);
    TrimEndOf(pkg, after);
  }

  /** The command line of a process of the package: its main process, or a named helper process. */
  function CmdlineOf(pkg: string, helper: Option<string>, arguments: string): string {
    (if helper.Some? then pkg + [':'] + helper.value else pkg) + [NUL] + arguments
  }

  /** Main and helper processes of a package are all read as that package. */
  lemma ProcessCarriesItsName(pkg: string, helper: Option<string>, arguments: string)
    requires CleanName(pkg) && (helper.Some? ==> NUL !in helper.value)
    ensures PkgFromCmdline(CmdlineOf(pkg, helper, arguments)) == Some(pkg)
  {
    hide Before, TrimStart, TrimEnd, IsSpace;
    TrimOfClean(pkg);
    BeforeSeparator(if helper.Some? then pkg + [':'] + helper.value else pkg, NUL, arguments);
    BeforeSeparator(pkg, ':', if helper.Some? then helper.value else "");
  }

  /** White space around the first argument makes no difference. */
  lemma PaddedNameIsRead(before: string, pkg: string, after: string, arguments: string)
    requires AllSpace(before) && AllSpace(after) && CleanName(pkg)
    ensures PkgFromCmdline(before + pkg + after + [NUL] + arguments) == Some(pkg)
  {
    var name := before + pkg + after;
    assert NUL !in name && ':' !in name;
    BeforeSeparator(name, NUL, arguments);
    BeforeSeparator(name, ':', "");
    TrimTakesOffSpace(before, pkg, after);
  }

  /** A rule key and a process of its package meet in the same name, for every user and helper; and a
      process read under that name is no other package's. */
  lemma KeyMatchesProcess(user: nat, pkg: string, other: string, helper: Option<string>, arguments: string)
    requires CleanName(pkg) && CleanName(other) && (helper.Some? ==> NUL !in helper.value)
    ensures PackageOf(UserKey(user, pkg)) == PkgFromCmdline(CmdlineOf(other, helper, arguments)) <==> pkg == other
  {
    PackageOfUserKey(user, pkg);
    ProcessCarriesItsName(other, helper, arguments);
  }
}
