/**
 Which files the Nimbus filter keeps, told from the path alone: where the source directory occurs in it, how it
 splits at the name of the repository, and which of four directories the rest starts with.
 */
module NimbusPaths {
  import opened Wrappers
  import opened PyString
  import opened NimbusReport

  /** `sub` stands at position `i` of `s`. */
  predicate OccursAt(s: string, sub: string, i: nat) {
    i <= |s| && sub <= s[i..]
  }

  ghost predicate Occurs(s: string, sub: string) {
    exists i: nat :: OccursAt(s, sub, i)
  }

  ghost predicate FirstAt(s: string, sub: string, i: nat) {
    OccursAt(s, sub, i) && forall j: nat :: j < i ==> !OccursAt(s, sub, j)
  }

  /** `s.split(sep) == parts`: cut at the first separator, and so on behind it. */
  ghost predicate Split(s: string, sep: string, parts: seq<string>)
    decreases |parts|
  {
    && parts != []
    && if |parts| == 1 then s == parts[0] && !Occurs(s, sep)
       else
         && FirstAt(s, sep, |parts[0]|) && parts[0] <= s
         && Split(s[|parts[0]|..][|sep|..], sep, parts[1..])
  }

  predicate InCoreDirectory(path: string) {
    || "beacon_chain/" <= path
    || "ncli/" <= path
    || "vendor/nim-blscurve/" <= path
    || "vendor/nim-ssz-serialization/" <= path
  }

  /** Behind leading slashes, the path is one that `wanted` accepts. */
  ghost predicate Leads(path: string, wanted: string -> bool) {
    exists i: nat :: i <= |path| && (forall k :: 0 <= k < i ==> path[k] == '/') && wanted(path[i..])
  }

  ghost predicate LeadsToCore(path: string) {
    Leads(path, InCoreDirectory)
  }

  /** No wanted path starts with a slash. */
  ghost predicate NoLeadingSlash(wanted: string -> bool) {
    forall path: string :: wanted(path) ==> path != "" && path[0] != '/'
  }

  ghost predicate SystemPath(file: string) {
    "/usr/" <= file || "/nimbus-eth2/" <= file || Occurs(file, "/usr/")
  }

  lemma {:induction false} FindIsFirst(s: string, sub: string)
    ensures Find(s, sub).Some? ==> FirstAt(s, sub, Find(s, sub).value)
    ensures Find(s, sub).None? ==> !Occurs(s, sub)
  {
    if !(sub <= s) && s != "" {
      FindIsFirst(s[1..], sub);
      forall j: nat | 0 < j <= |s|
        ensures OccursAt(s, sub, j) <==> OccursAt(s[1..], sub, j - 1)
      {
        assert s[j..] == s[1..][j - 1..];
      }
    }
    assert s[0..] == s;
  }

  lemma FirstIsFound(s: string, sub: string, i: nat)
    requires FirstAt(s, sub, i)
    ensures Find(s, sub) == Some(i)
  {
    FindIsFirst(s, sub);
    var j := Find(s, sub).value;
    assert OccursAt(s, sub, j);
  }

  lemma ContainsIff(s: string, sub: string)
    ensures Contains(s, sub) <==> Occurs(s, sub)
  {
    FindIsFirst(s, sub);
  }

  lemma {:induction false} LastPart(s: string, sep: string, parts: seq<string>)
    requires sep != "" && Split(s, sep, parts)
    ensures AfterLastSplit(s, sep) == parts[|parts| - 1]
    decreases |parts|
  {
    FindIsFirst(s, sep);
    if |parts| > 1 {
      FirstIsFound(s, sep, |parts[0]|);
      assert s[|parts[0]|..][|sep|..] == s[|parts[0]| + |sep|..];
      LastPart(s[|parts[0]|..][|sep|..], sep, parts[1..]);
    }
  }

  /** The first `i` characters are the leading slashes. */
  ghost predicate LeadingSlashes(s: string, i: nat) {
    i <= |s| && (forall k :: 0 <= k < i ==> s[k] == '/') && (i < |s| ==> s[i] != '/')
  }

  lemma {:induction false} SlashesStripped(s: string) returns (i: nat)
    ensures LeadingSlashes(s, i) && StripSlashes(s) == s[i..]
  {
    i := 0;
    if s != "" && s[0] == '/' {
      var n := SlashesStripped(s[1..]);
      i := n + 1;
      assert s[1..][n..] == s[i..];
      forall k | 0 <= k < i
        ensures s[k] == '/'
      {
        assert k > 0 ==> s[k] == s[1..][k - 1];
      }
    } else {
      assert s[0..] == s;
    }
  }

  lemma CoreHasNoLeadingSlash()
    ensures NoLeadingSlash(InCoreDirectory)
  {
    forall path: string | InCoreDirectory(path)
      ensures path != "" && path[0] != '/'
    {
    }
  }

  lemma CoreIff(path: string)
    ensures InCoreDirectory(path) <==> InCore(path)
  {
    FourDirectories(CORE_PREFIXES[0], CORE_PREFIXES[1], CORE_PREFIXES[2], CORE_PREFIXES[3], path);
  }

  lemma FourDirectories(p0: string, p1: string, p2: string, p3: string, path: string)
    ensures (exists p | p in [p0, p1, p2, p3] :: p <= path) <==> p0 <= path || p1 <= path || p2 <= path || p3 <= path
  {
    var ps := [p0, p1, p2, p3];
    assert p0 == ps[0] && p1 == ps[1] && p2 == ps[2] && p3 == ps[3];
    assert p0 in ps && p1 in ps && p2 in ps && p3 in ps;
  }

  lemma SystemPathIff(file: string)
    ensures SystemPath(file) <==> Excluded(file)
  {
    ContainsIff(file, "/usr/");
  }

  lemma ScopeIsRelative(src: string, file: string)
    ensures NimbusScope(src)(file) <==> !SystemPath(file) && InCoreDirectory(RelativePath(src, file))
  {
    SystemPathIff(file);
    CoreIff(RelativePath(src, file));
  }

  lemma StrippedLeads(path: string, wanted: string -> bool)
    requires NoLeadingSlash(wanted)
    ensures wanted(StripSlashes(path)) <==> Leads(path, wanted)
  {
    var n := SlashesStripped(path);
    if Leads(path, wanted) {
      var i: nat :| i <= |path| && (forall k :: 0 <= k < i ==> path[k] == '/') && wanted(path[i..]);
      assert path[i..][0] == path[i];
      assert i == n;
    }
  }

  lemma StrippedLeadsToCore(path: string)
    ensures InCoreDirectory(StripSlashes(path)) <==> LeadsToCore(path)
  {
    CoreHasNoLeadingSlash();
    StrippedLeads(path, InCoreDirectory);
  }

  lemma RelativeToSource(src: string, file: string, at: nat)
    requires FirstAt(file, src, at)
    ensures RelativePath(src, file) == StripSlashes(file[at..][|src|..])
  {
    FirstIsFound(file, src, at);
    assert file[at..][|src|..] == file[at + |src|..];
  }

  /** A path in which the source directory occurs: what follows its first occurrence decides. */
  lemma InScopeBehindSource(src: string, file: string, at: nat)
    requires FirstAt(file, src, at)
    ensures NimbusScope(src)(file) <==> !SystemPath(file) && LeadsToCore(file[at..][|src|..])
  {
    RelativeToSource(src, file, at);
    ScopeIsRelative(src, file);
    StrippedLeadsToCore(file[at..][|src|..]);
  }

  lemma RelativeToRepository(src: string, file: string, parts: seq<string>)
    requires !Occurs(file, src) && Split(file, "/nimbus-eth2/", parts) && |parts| > 1
    ensures RelativePath(src, file) == parts[|parts| - 1]
  {
    FindIsFirst(file, src);
    FindIsFirst(file, "/nimbus-eth2/");
    LastPart(file, "/nimbus-eth2/", parts);
  }

  /** Any other path with the name of the repository in it: the part behind the last cut decides. */
  lemma InScopeBehindRepository(src: string, file: string, parts: seq<string>)
    requires !Occurs(file, src) && Split(file, "/nimbus-eth2/", parts) && |parts| > 1
    ensures NimbusScope(src)(file) <==> !SystemPath(file) && InCoreDirectory(parts[|parts| - 1])
  {
    RelativeToRepository(src, file, parts);
    ScopeIsRelative(src, file);
  }

  /** `turned` is the path with its backslashes turned. */
  predicate Turned(file: string, turned: string) {
    && |turned| == |file|
    && forall k :: 0 <= k < |file| ==> turned[k] == if file[k] == '\\' then '/' else file[k]
  }

  lemma TurnedIsNormal(file: string, turned: string)
    requires Turned(file, turned)
    ensures NormalizePath(file) == turned
  {
  }

  lemma RelativeAsIs(src: string, file: string)
    requires !Occurs(file, src) && !Occurs(file, "/nimbus-eth2/")
    ensures RelativePath(src, file) == NormalizePath(file)
  {
    FindIsFirst(file, src);
    FindIsFirst(file, "/nimbus-eth2/");
  }

  /** Any other path: it is taken as it is, with backslashes turned. */
  lemma InScopeAsIs(src: string, file: string, turned: string)
    requires !Occurs(file, src) && !Occurs(file, "/nimbus-eth2/")
    requires Turned(file, turned)
    ensures NimbusScope(src)(file) <==> !SystemPath(file) && InCoreDirectory(turned)
  {
    RelativeAsIs(src, file);
    TurnedIsNormal(file, turned);
    ScopeIsRelative(src, file);
  }

  lemma BehindSlash(other: string, wanted: string -> bool)
    requires NoLeadingSlash(wanted)
    ensures Leads("/" + other, wanted) <==> Leads(other, wanted)
  {
    var path := "/" + other;
    if Leads(path, wanted) {
      var i: nat :| i <= |path| && (forall k :: 0 <= k < i ==> path[k] == '/') && wanted(path[i..]);
      assert path[i..][0] == path[i];
      assert other[i - 1..] == path[i..];
      assert forall k :: 0 <= k < i - 1 ==> other[k] == path[k + 1];
    }
    if Leads(other, wanted) {
      var i: nat :| i <= |other| && (forall k :: 0 <= k < i ==> other[k] == '/') && wanted(other[i..]);
      assert path[i + 1..] == other[i..];
    }
  }

  lemma CoreBehindSlash(other: string)
    ensures LeadsToCore("/" + other) <==> LeadsToCore(other)
  {
    CoreHasNoLeadingSlash();
    BehindSlash(other, InCoreDirectory);
  }

  lemma SourceComesFirst(src: string, rest: string)
    ensures FirstAt(src + rest, src, 0) && (src + rest)[0..][|src|..] == rest
  {
    assert (src + rest)[0..] == src + rest;
  }

  /** The files of the source tree, as a report names them. */
  lemma FilesOfSourceTree(src: string, other: string, file: string)
    requires file == src + ("/" + other)
    ensures NimbusScope(src)(file) <==> !SystemPath(file) && LeadsToCore(other)
  {
    SourceComesFirst(src, "/" + other);
    InScopeBehindSource(src, file, 0);
    CoreBehindSlash(other);
  }

  lemma DirectoryLeads(directory: string, rest: string)
    requires InCoreDirectory(directory)
    ensures LeadsToCore(directory + rest)
  {
    var path := directory + rest;
    assert path[0..] == path;
    assert InCoreDirectory(path[0..]);
  }

  /** Every file below one of the four directories of the source tree is in scope, unless it is a system path. */
  lemma CoreFilesAreInScope(src: string, directory: string, rest: string, file: string)
    requires directory in {"beacon_chain/", "ncli/", "vendor/nim-blscurve/", "vendor/nim-ssz-serialization/"}
    requires file == src + ("/" + (directory + rest)) && !SystemPath(file)
    ensures NimbusScope(src)(file)
  {
    assert InCoreDirectory(directory);
    DirectoryLeads(directory, rest);
    FilesOfSourceTree(src, directory + rest, file);
  }
}
