/** How bin/index.cjs works out the command name of a freshly installed tool:
    first from the scratch directory's entries, then from a phrase in the
    installer's standard output, and otherwise not at all — it never guesses. */
module Resolution {
  import opened Wrappers
  import opened JsStrings

  /** What listing the scratch directory produced: its entry names, or the
      error that made listing it fail. */
  datatype Listing = Entries(names: seq<string>) | ListingFailed(message: string)

  /** The Windows executable suffix. */
  const ExeSuffix: string := ".exe"

  /** A chosen entry's command name: a trailing `.exe` (case-sensitive)
      removed once, and only on Windows. */
  function StripExe(isWindows: bool, name: string): (r: string)
    ensures isWindows && EndsWith(name, ExeSuffix) ==> r + ExeSuffix == name
    ensures !(isWindows && EndsWith(name, ExeSuffix)) ==> r == name
  {
    if isWindows && EndsWith(name, ExeSuffix) then name[..|name| - |ExeSuffix|] else name
  }

  /** Documentation and package metadata, which the directory step never
      picks: a name ending in `.md`, `.txt`, `.json` or `.config`, or
      beginning with `readme`, `license` or `notice`, ignoring case. */
  predicate IsDocOrMetadata(name: string) {
    || EndsWithIgnoringCase(name, ".md")
    || EndsWithIgnoringCase(name, ".txt")
    || EndsWithIgnoringCase(name, ".json")
    || EndsWithIgnoringCase(name, ".config")
    || StartsWithIgnoringCase(name, "readme")
    || StartsWithIgnoringCase(name, "license")
    || StartsWithIgnoringCase(name, "notice")
  }

  /** The entries that survive the documentation/metadata filter, in order. */
  function Candidates(names: seq<string>): (r: seq<string>)
    ensures |r| <= |names|
    ensures forall x :: x in r <==> x in names && !IsDocOrMetadata(x)
  {
    if names == [] then []
    else (if IsDocOrMetadata(names[0]) then [] else [names[0]]) + Candidates(names[1..])
  }

  /** The directory step: the only entry, or else the only entry that
      survives the filter, with `.exe` stripped on Windows; None when the
      listing failed or neither rule applies. */
  function DirectoryChoice(isWindows: bool, listing: Listing): (r: Option<string>)
    ensures r.Some? ==> listing.Entries? && exists e :: e in listing.names && r.value == StripExe(isWindows, e)
  {
    match listing
    case ListingFailed(_) => None
    case Entries(names) =>
      if |names| == 1 then Some(StripExe(isWindows, names[0]))
      else if |names| > 1 then
        var survivors := Candidates(names);
        if |survivors| == 1 then
          assert survivors[0] in survivors;
          Some(StripExe(isWindows, survivors[0]))
        else None
      else None
  }

  /** The two phrases a successful `dotnet tool install` prints before the
      command name. */
  const InvokePhrase: string := "You can invoke the tool using the following command:"
  const CommandsPhrase: string := "has the following commands:"

  /** The length of the run of characters starting at `p` whose whiteness is
      `white`: `\s*` or `[^\s]*` matched greedily at `p`. */
  function RunLength(s: string, p: nat, white: bool): (n: nat)
    requires p <= |s|
    ensures p + n <= |s|
    ensures forall k :: p <= k < p + n ==> IsSpace(s[k]) == white
    ensures p + n < |s| ==> IsSpace(s[p + n]) != white
    decreases |s| - p
  {
    if p == |s| || IsSpace(s[p]) != white then 0 else 1 + RunLength(s, p + 1, white)
  }

  /** The captures a match of `\s+([^\s\n]+)` starting at `q` could yield:
      `w` whitespace characters and then the token `t`, which no further
      non-space character extends. */
  predicate TokenShape(s: string, q: nat, w: nat, t: string) {
    && 1 <= w && t != []
    && q + w + |t| <= |s|
    && AllSpace(s[q..q + w])
    && s[q + w..q + w + |t|] == t
    && NoSpace(t)
    && (q + w + |t| == |s| || IsSpace(s[q + w + |t|]))
  }

  /** `\s+([^\s\n]+)` anchored at `q`, with capture 1 as the result. */
  function TokenAfter(s: string, q: nat): (r: Option<string>)
    requires q <= |s|
    ensures r.Some? ==> TokenShape(s, q, RunLength(s, q, true), r.value)
    ensures r.None? ==> forall w: nat, t :: !TokenShape(s, q, w, t)
  {
    var w := RunLength(s, q, true);
    var n := RunLength(s, q + w, false);
    if w > 0 && n > 0 then
      var t := s[q + w..q + w + n];
      var spaces := s[q..q + w];
      assert AllSpace(spaces) by {
        forall k | 0 <= k < |spaces| ensures IsSpace(spaces[k]) {
          assert spaces[k] == s[q + k];
        }
      }
      Some(t)
    else
      NoTokenShape(s, q);
      None
  }

  /** Where greedy matching finds no whitespace or no token, no match exists. */
  lemma NoTokenShape(s: string, q: nat)
    requires q <= |s|
    requires RunLength(s, q, true) == 0 || RunLength(s, q + RunLength(s, q, true), false) == 0
    ensures forall w: nat, t :: !TokenShape(s, q, w, t)
  {
    forall w: nat, t | TokenShape(s, q, w, t) ensures false {
      TokenShapeIsGreedy(s, q, w, t);
    }
  }

  /** Backtracking finds nothing greedy matching misses: any match of
      `\s+([^\s\n]+)` at `q` uses the whole whitespace run and the whole
      token run after it. */
  lemma TokenShapeIsGreedy(s: string, q: nat, w: nat, t: string)
    requires q <= |s| && TokenShape(s, q, w, t)
    ensures w == RunLength(s, q, true)
    ensures |t| == RunLength(s, q + w, false)
  {
    var w0 := RunLength(s, q, true);
    forall k | q <= k < q + w ensures IsSpace(s[k]) {
      assert s[q..q + w][k - q] == s[k];
    }
    assert s[q + w] == t[0];
    forall k | q + w <= k < q + w + |t| ensures !IsSpace(s[k]) {
      assert s[q + w..q + w + |t|][k - q - w] == s[k];
    }
  }

  /** The phrase occurs at `p`, ignoring case, and is followed by whitespace
      and the token `t`. */
  ghost predicate PhraseThenToken(s: string, p: nat, phrase: string, t: string) {
    OccursAtIgnoringCase(s, p, phrase) && TokenFollows(s, p + |phrase|, t)
  }

  /** Some match of `\s+([^\s\n]+)` at `q` captures `t`. */
  ghost predicate TokenFollows(s: string, q: nat, t: string) {
    exists w: nat :: TokenShape(s, q, w, t)
  }

  /** The regular expression's attempt at position `p`: the first alternative
      phrase, then the second, each followed by whitespace and a token. The
      attempt succeeds exactly when one of the phrases is followed by a token
      there, and it prefers the first phrase. */
  function MatchAt(s: string, p: nat): (r: Option<string>)
    requires p <= |s|
    ensures r.Some? ==> PhraseThenToken(s, p, InvokePhrase, r.value) || PhraseThenToken(s, p, CommandsPhrase, r.value)
    ensures r.None? ==> forall t :: !PhraseThenToken(s, p, InvokePhrase, t) && !PhraseThenToken(s, p, CommandsPhrase, t)
    ensures (exists t :: PhraseThenToken(s, p, InvokePhrase, t)) ==> r.Some? && PhraseThenToken(s, p, InvokePhrase, r.value)
  {
    var first :=
      if OccursAtIgnoringCase(s, p, InvokePhrase) then TokenAfter(s, p + |InvokePhrase|) else None;
    if first.Some? then first
    else if OccursAtIgnoringCase(s, p, CommandsPhrase) then TokenAfter(s, p + |CommandsPhrase|)
    else None
  }

  /** The regular expression's attempt at every position of `s`, the end
      included. */
  function Attempts(s: string): (a: seq<Option<string>>)
    ensures |a| == |s| + 1
    ensures forall k :: 0 <= k < |a| ==> a[k] == MatchAt(s, k)
  {
    seq(|s| + 1, k requires 0 <= k <= |s| => MatchAt(s, k))
  }

  /** The leftmost attempt at or after `p` that succeeded. */
  function FirstSuccess<T>(a: seq<Option<T>>, p: nat): (q: Option<nat>)
    requires p <= |a|
    ensures q.Some? ==> p <= q.value < |a| && a[q.value].Some?
    ensures q.Some? ==> forall k :: p <= k < q.value ==> a[k].None?
    ensures q.None? ==> forall k :: p <= k < |a| ==> a[k].None?
    decreases |a| - p
  {
    if p == |a| then None
    else if a[p].Some? then Some(p)
    else FirstSuccess(a, p + 1)
  }

  /** `stdout.match(commandRegex)[1]`: the token after the leftmost phrase
      (either one, ignoring case) that is followed by whitespace and a token. */
  function InvocationToken(stdout: string): (r: Option<string>)
    ensures r.Some? ==> r.value != [] && NoSpace(r.value)
    ensures r.None? <==> forall k :: 0 <= k <= |stdout| ==> MatchAt(stdout, k).None?
  {
    var attempts := Attempts(stdout);
    match FirstSuccess(attempts, 0)
    case Some(q) => attempts[q]
    case None => None
  }

  /** The token found is the one of the leftmost match: some position
      carries it, and no earlier position matches. */
  lemma InvocationTokenIsLeftmost(stdout: string)
    ensures InvocationToken(stdout).Some? ==>
              exists q :: 0 <= q <= |stdout| && MatchAt(stdout, q) == InvocationToken(stdout)
                          && forall k :: 0 <= k < q ==> MatchAt(stdout, k).None?
  {
    if InvocationToken(stdout).Some? {
      var q := FirstSuccess(Attempts(stdout), 0).value;
      assert MatchAt(stdout, q) == InvocationToken(stdout);
    }
  }

  /** The message of the error thrown when no name can be established. */
  const UnresolvedLead: string := "Could not determine tool command name. Installation output: "

  /** The message names the failure and then carries the installer's
      trimmed output, and nothing else. */
  function UnresolvedMessage(stdout: string): (m: string)
    ensures UnresolvedLead <= m
    ensures m[|UnresolvedLead|..] == Trim(stdout)
  {
    assert (UnresolvedLead + Trim(stdout))[..|UnresolvedLead|] == UnresolvedLead;
    UnresolvedLead + Trim(stdout)
  }

  /** The directory step gave a usable (non-empty) name. */
  predicate DirectoryDecides(isWindows: bool, listing: Listing) {
    var d := DirectoryChoice(isWindows, listing);
    d.Some? && d.value != ""
  }

  /** The whole resolution: the directory step when it yields a non-empty
      name, otherwise the token after a phrase in stdout, otherwise failure. */
  function ResolveCommandName(isWindows: bool, listing: Listing, stdout: string): (r: Result<string, string>)
    ensures r.Success? ==> r.value != ""
    ensures r.Failure? ==> r.error == UnresolvedMessage(stdout)
    ensures r.Failure? <==> !DirectoryDecides(isWindows, listing) && InvocationToken(stdout).None?
    ensures r.Success? && DirectoryDecides(isWindows, listing) ==>
              Some(r.value) == DirectoryChoice(isWindows, listing)
    ensures r.Success? && !DirectoryDecides(isWindows, listing) ==>
              Some(r.value) == InvocationToken(stdout)
  {
    var fromDirectory := DirectoryChoice(isWindows, listing);
    if fromDirectory.Some? && fromDirectory.value != "" then Success(fromDirectory.value)
    else
      match InvocationToken(stdout)
      case Some(token) => Success(token)
      case None => Failure(UnresolvedMessage(stdout))
  }

  /** A single entry is the command, whatever its name, less `.exe` on
      Windows; the installer output is not consulted unless that leaves
      nothing. */
  lemma SingleEntryWins(isWindows: bool, entry: string, stdout: string)
    ensures DirectoryChoice(isWindows, Entries([entry])) == Some(StripExe(isWindows, entry))
    ensures StripExe(isWindows, entry) != "" ==>
              ResolveCommandName(isWindows, Entries([entry]), stdout) == Success(StripExe(isWindows, entry))
  {
  }

  /** No name is listed twice, as in any directory listing. */
  predicate Distinct(names: seq<string>) {
    forall i, j :: 0 <= i < j < |names| ==> names[i] != names[j]
  }

  /** `e` is listed, is not documentation or metadata, and every other
      listed name is. */
  predicate SoleSurvivor(names: seq<string>, e: string) {
    && e in names && !IsDocOrMetadata(e)
    && forall x :: x in names && !IsDocOrMetadata(x) ==> x == e
  }

  /** Filtering a listing without repeats leaves a list without repeats. */
  lemma {:induction false} CandidatesOfDistinct(names: seq<string>)
    requires Distinct(names)
    ensures Distinct(Candidates(names))
  {
    if names != [] {
      var rest := names[1..];
      assert Distinct(rest) by {
        forall i, j | 0 <= i < j < |rest| ensures rest[i] != rest[j] {
          assert rest[i] == names[i + 1] && rest[j] == names[j + 1];
        }
      }
      CandidatesOfDistinct(rest);
      var c := Candidates(names);
      var cr := Candidates(rest);
      if !IsDocOrMetadata(names[0]) {
        assert names[0] !in cr by {
          forall k | 0 <= k < |rest| ensures rest[k] != names[0] {
            assert rest[k] == names[k + 1];
          }
        }
        assert c == [names[0]] + cr;
        forall i, j | 0 <= i < j < |c| ensures c[i] != c[j] {
          assert c[j] == cr[j - 1] && cr[j - 1] in cr;
          if i > 0 {
            assert c[i] == cr[i - 1];
          }
        }
      }
    }
  }

  /** A list without repeats whose every element is `e` has at most one
      element. */
  lemma NoTwoCopies(c: seq<string>, e: string)
    requires Distinct(c)
    requires forall k :: 0 <= k < |c| ==> c[k] == e
    ensures |c| <= 1
  {
    if |c| > 1 {
      DistinctPair(c, 0, 1);
    }
  }

  lemma DistinctPair(c: seq<string>, i: nat, j: nat)
    requires Distinct(c) && i < j < |c|
    ensures c[i] != c[j]
  {
  }

  /** Among several distinct entries, the directory decides exactly when
      one of them is not documentation or metadata and all the others are,
      and then it picks that one. */
  lemma SeveralEntriesNeedOneSurvivor(isWindows: bool, names: seq<string>)
    requires |names| > 1 && Distinct(names)
    ensures DirectoryChoice(isWindows, Entries(names)).Some? <==> exists e :: SoleSurvivor(names, e)
    ensures forall e :: SoleSurvivor(names, e) ==>
              DirectoryChoice(isWindows, Entries(names)) == Some(StripExe(isWindows, e))
  {
    var c := Candidates(names);
    CandidatesOfDistinct(names);
    if |c| == 1 {
      var e := c[0];
      assert e in c;
      assert SoleSurvivor(names, e) by {
        forall x | x in names && !IsDocOrMetadata(x) ensures x == e {
          assert x in c;
        }
      }
    } else {
      forall e | SoleSurvivor(names, e) ensures false {
        assert e in c;
        forall k | 0 <= k < |c| ensures c[k] == e {
          assert c[k] in c;
        }
        NoTwoCopies(c, e);
      }
    }
  }

  /** Entries that are all documentation or metadata leave no candidate. */
  lemma {:induction false} CandidatesOfDocs(names: seq<string>)
    requires forall k :: 0 <= k < |names| ==> IsDocOrMetadata(names[k])
    ensures Candidates(names) == []
  {
    if names != [] {
      CandidatesOfDocs(names[1..]);
    }
  }

  /** With one entry that is not documentation or metadata, listed once,
      the filter leaves exactly that entry. */
  lemma {:induction false} CandidatesOfOne(names: seq<string>, e: string)
    requires !IsDocOrMetadata(e)
    requires multiset(names)[e] == 1
    requires forall k :: 0 <= k < |names| && names[k] != e ==> IsDocOrMetadata(names[k])
    ensures Candidates(names) == [e]
  {
    assert names != [];
    var rest := names[1..];
    assert names == [names[0]] + rest;
    if names[0] == e {
      assert multiset(rest)[e] == 0;
      forall k | 0 <= k < |rest| ensures IsDocOrMetadata(rest[k]) {
        assert rest[k] == names[k + 1];
        assert rest[k] in multiset(rest);
      }
      CandidatesOfDocs(rest);
    } else {
      assert multiset(rest)[e] == 1;
      forall k | 0 <= k < |rest| && rest[k] != e ensures IsDocOrMetadata(rest[k]) {
        assert rest[k] == names[k + 1];
      }
      CandidatesOfOne(rest, e);
    }
  }

  /** The directory step picks the one entry that is not documentation or
      metadata, when there is exactly one among several. */
  lemma OneExecutableAmongDocs(isWindows: bool, names: seq<string>, e: string)
    requires |names| > 1
    requires !IsDocOrMetadata(e) && multiset(names)[e] == 1
    requires forall k :: 0 <= k < |names| && names[k] != e ==> IsDocOrMetadata(names[k])
    ensures DirectoryChoice(isWindows, Entries(names)) == Some(StripExe(isWindows, e))
  {
    CandidatesOfOne(names, e);
  }

  /** Two different entries that both survive the filter leave the decision
      to the installer output: the directory step picks neither. */
  lemma TwoExecutablesDefer(isWindows: bool, names: seq<string>, i: nat, j: nat)
    requires i < |names| && j < |names| && names[i] != names[j]
    requires !IsDocOrMetadata(names[i]) && !IsDocOrMetadata(names[j])
    ensures DirectoryChoice(isWindows, Entries(names)) == None
  {
    var r := Candidates(names);
    assert names[i] in r && names[j] in r;
  }

  /** A readme beside the tool leaves the tool as the only candidate. */
  lemma ReadmeBesideTool(isWindows: bool)
    ensures DirectoryChoice(isWindows, Entries(["readme.md", "tool"])) == Some("tool")
  {
    var names := ["readme.md", "tool"];
    assert StartsWithIgnoringCase("readme.md", "readme");
    assert !EndsWithIgnoringCase("tool", ".config") && !EndsWithIgnoringCase("tool", ".json");
    assert AsciiUpper("tool"[1]) != AsciiUpper(".md"[0]);
    assert AsciiUpper("tool"[0]) != AsciiUpper(".txt"[0]);
    assert AsciiUpper("tool"[0]) != AsciiUpper("readme"[0]);
    assert AsciiUpper("tool"[0]) != AsciiUpper("license"[0]);
    assert AsciiUpper("tool"[0]) != AsciiUpper("notice"[0]);
    assert !IsDocOrMetadata("tool");
    assert multiset(names)["tool"] == 1;
    OneExecutableAmongDocs(isWindows, names, "tool");
    assert !EndsWith("tool", ExeSuffix) by {
      assert "tool"[0..] != ExeSuffix;
    }
  }

  /** A tool beside a library is not picked from the directory: without a
      phrase in the installer's output the resolution fails rather than
      choose either file. */
  lemma ToolBesideLibraryFails(isWindows: bool, stdout: string)
    requires InvocationToken(stdout).None?
    ensures ResolveCommandName(isWindows, Entries(["tool", "extra.dll"]), stdout) == Failure(UnresolvedMessage(stdout))
  {
    var names := ["tool", "extra.dll"];
    assert AsciiUpper("tool"[1]) != AsciiUpper(".md"[0]);
    assert AsciiUpper("tool"[0]) != AsciiUpper(".txt"[0]);
    assert AsciiUpper("tool"[0]) != AsciiUpper("readme"[0]);
    assert AsciiUpper("tool"[0]) != AsciiUpper("license"[0]);
    assert AsciiUpper("tool"[0]) != AsciiUpper("notice"[0]);
    assert !EndsWithIgnoringCase("tool", ".config") && !EndsWithIgnoringCase("tool", ".json");
    var dll := "extra.dll";
    assert AsciiUpper(dll[6]) != AsciiUpper(".md"[0]);
    assert AsciiUpper(dll[6]) != AsciiUpper(".txt"[1]);
    assert AsciiUpper(dll[4]) != AsciiUpper(".json"[0]);
    assert AsciiUpper(dll[2]) != AsciiUpper(".config"[0]);
    assert AsciiUpper(dll[0]) != AsciiUpper("readme"[0]);
    assert AsciiUpper(dll[0]) != AsciiUpper("license"[0]);
    assert AsciiUpper(dll[0]) != AsciiUpper("notice"[0]);
    TwoExecutablesDefer(isWindows, names, 0, 1);
  }

  /** A string begins with itself, whatever follows. */
  lemma OccursAtStart(a: string, b: string)
    ensures OccursAtIgnoringCase(a + b, 0, a)
  {
    forall k | 0 <= k < |a| ensures (a + b)[k] == a[k] {
    }
  }

  /** A token right after the first phrase, at the very start of stdout, is
      the command name the fallback reports. */
  lemma InvokePhraseNamesCommand(name: string, rest: string)
    requires name != [] && NoSpace(name)
    ensures InvocationToken(InvokePhrase + " " + name + "\n" + rest) == Some(name)
  {
    var s := InvokePhrase + " " + name + "\n" + rest;
    var q := |InvokePhrase|;
    PhraseThenName(InvokePhrase, name, rest);
    var m := MatchAt(s, 0);
    assert m.Some? && PhraseThenToken(s, 0, InvokePhrase, m.value);
    var w: nat :| TokenShape(s, q, w, m.value);
    TokenShapeIsGreedy(s, q, w, m.value);
    TokenShapeIsGreedy(s, q, 1, name);
    assert m.value == s[q + w..q + w + |m.value|] == name;
    assert Attempts(s)[0] == m;
  }

  /** A phrase, one space, a token and a line break: the phrase is followed
      by that token. */
  lemma PhraseThenName(phrase: string, name: string, rest: string)
    requires name != [] && NoSpace(name)
    ensures TokenShape(phrase + " " + name + "\n" + rest, |phrase|, 1, name)
    ensures PhraseThenToken(phrase + " " + name + "\n" + rest, 0, phrase, name)
  {
    var tail := " " + name + "\n" + rest;
    var s := phrase + tail;
    assert s == phrase + " " + name + "\n" + rest;
    OccursAtStart(phrase, tail);
    var q := |phrase|;
    assert s[q..q + 1] == " ";
    assert AllSpace(s[q..q + 1]);
    assert s[q + 1..q + 1 + |name|] == name;
    assert s[q + 1 + |name|] == '\n';
    assert TokenShape(s, q, 1, name);
  }
}
