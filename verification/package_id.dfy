/** The two package-identifier parsers of the launcher. The user writes
    `<package-id>` or `<package-id>@<version>`; each variant turns that token
    into a package reference, and they disagree on a second `@`, on a trailing
    lone `@` and on inputs that do not have the expected shape. */
module PackageId {
  import opened Wrappers
  import opened JsStrings

  /** A parsed package identifier: the NuGet id and the requested version
      (None where the JavaScript value is null). */
  datatype PackageRef = PackageRef(id: string, version: Option<string>)

  /** JavaScript truthiness of a parsed version: present and not "". */
  predicate HasVersion(version: Option<string>) {
    version.Some? && version.value != ""
  }

  /** bin/index.cjs: split the token on every `@` and keep pieces 0 and 1.
      The id is the text before the first `@` (all of it when there is none);
      the version is None exactly when there is no `@`, and otherwise the
      text between the first `@` and the next one (or the end), so it may be
      "" and anything after a second `@` is dropped. */
  function ParseSplit(token: string): (r: PackageRef)
    ensures r.id <= token && '@' !in r.id
    ensures |r.id| < |token| ==> token[|r.id|] == '@'
    ensures r.version.None? <==> '@' !in token
    ensures r.version.None? <==> |r.id| == |token|
    ensures r.version.Some? ==>
              var rest := token[|r.id| + 1..];
              var v := r.version.value;
              v <= rest && '@' !in v && (|v| == |rest| || rest[|v|] == '@')
  {
    var parts := Split(token, '@');
    var i := IndexOf(token, '@');
    if i < |token| then
      assert parts == [token[..i]] + Split(token[i + 1..], '@');
      SplitHead(token[i + 1..], '@');
      PackageRef(parts[0], Some(parts[1]))
    else
      PackageRef(parts[0], None)
  }

  /** The first piece of a split is everything up to the first separator. */
  lemma SplitHead(s: string, sep: char)
    ensures Split(s, sep)[0] == s[..IndexOf(s, sep)]
    ensures |Split(s, sep)| > 1 <==> sep in s
  {
  }

  /** The shape the anchored pattern `^([^@]+)(?:@(.+))?$` of bin/index.js
      accepts, with the captures it yields: a non-empty `@`-free id, then
      either nothing or `@` and a non-empty version without line terminators
      (`.` does not match them). */
  predicate AnchoredShape(token: string, r: PackageRef) {
    && r.id != [] && '@' !in r.id
    && match r.version
       case None => token == r.id
       case Some(v) => token == r.id + "@" + v && v != [] && NoLineTerminator(v)
  }

  /** bin/index.js: the anchored match; None stands for the null match, on
      which reading `match[1]` throws. The version is the whole remainder
      after the first `@`, further `@` included. */
  function ParseAnchored(token: string): (r: Option<PackageRef>)
    ensures r.Some? ==> AnchoredShape(token, r.value)
  {
    var i := IndexOf(token, '@');
    if i == 0 then None
    else if i == |token| then Some(PackageRef(token, None))
    else
      var rest := token[i + 1..];
      assert token == token[..i] + "@" + rest;
      if rest != [] && NoLineTerminator(rest) then Some(PackageRef(token[..i], Some(rest))) else None
  }

  /** The anchored parser accepts exactly the tokens of the anchored shape and
      returns exactly its captures: the regular expression and the parser agree
      on every input. */
  lemma ParseAnchoredIffShape(token: string, r: PackageRef)
    ensures ParseAnchored(token) == Some(r) <==> AnchoredShape(token, r)
  {
    if AnchoredShape(token, r) {
      match r.version {
        case None =>
          assert IndexOf(token, '@') == |token|;
        case Some(v) =>
          IndexOfAfterPrefix(r.id, '@', v);
          assert token[..|r.id|] == r.id;
          assert token[|r.id| + 1..] == v;
      }
    }
  }

  /** The inputs the anchored pattern rejects and whose `match[1]` throws:
      the empty token, every token with a leading `@`, and every token whose
      text after an `@` holds a line break. */
  lemma ParseAnchoredRejects(id: string, v: string)
    ensures ParseAnchored("") == None
    ensures ParseAnchored("@" + v) == None
    ensures !NoLineTerminator(v) ==> ParseAnchored(id + "@" + v) == None
  {
    assert ("@" + v)[0] == '@';
    var token := id + "@" + v;
    var i := IndexOf(token, '@');
    assert token[|id|] == '@';
    assert i <= |id|;
    if !NoLineTerminator(v) && i > 0 {
      var k :| 0 <= k < |v| && IsLineTerminator(v[k]);
      assert token[i + 1..][|id| - i + k] == v[k];
    }
  }

  /** The id before the first `@` and the piece after it, as ParseSplit
      reads them, for a token built from an `@`-free id and version. */
  lemma ParseSplitOfParts(id: string, v: string, tail: string)
    requires '@' !in id && '@' !in v
    requires tail == [] || tail[0] == '@'
    ensures ParseSplit(id + "@" + v + tail) == PackageRef(id, Some(v))
  {
    var token := id + "@" + v + tail;
    var rest := v + tail;
    assert token == id + ['@'] + rest;
    IndexOfAfterPrefix(id, '@', rest);
    assert token[..|id|] == id;
    assert token[|id| + 1..] == rest;
    if tail == [] {
      assert rest == v;
    } else {
      assert rest == v + ['@'] + tail[1..];
      IndexOfAfterPrefix(v, '@', tail[1..]);
    }
    assert IndexOf(rest, '@') == |v|;
    assert rest[..|v|] == v;
    SplitHead(rest, '@');
  }

  /** The unit tests' example without a version. */
  lemma ParseExampleWithoutVersion()
    ensures ParseSplit("dotnet-example") == PackageRef("dotnet-example", None)
  {
    assert '@' !in "dotnet-example";
  }

  /** The unit tests' example with a version. */
  lemma ParseExampleWithVersion()
    ensures ParseSplit("dotnet-example@1.2.3") == PackageRef("dotnet-example", Some("1.2.3"))
  {
    ParseSplitOfParts("dotnet-example", "1.2.3", "");
    assert "dotnet-example" + "@" + "1.2.3" + "" == "dotnet-example@1.2.3";
  }

  /** A second `@` separates the variants: the split variant keeps only the
      piece before it, the anchored one keeps the whole remainder. */
  lemma ParsersDivergeOnSecondAt(id: string, v: string, w: string)
    requires id != [] && '@' !in id && '@' !in v
    requires NoLineTerminator(v + "@" + w)
    ensures ParseSplit(id + "@" + v + "@" + w) == PackageRef(id, Some(v))
    ensures ParseAnchored(id + "@" + v + "@" + w) == Some(PackageRef(id, Some(v + "@" + w)))
  {
    var tail := "@" + w;
    ParseSplitOfParts(id, v, tail);
    assert id + "@" + v + tail == id + "@" + v + "@" + w;
    var r := PackageRef(id, Some(v + "@" + w));
    assert id + "@" + (v + "@" + w) == id + "@" + v + "@" + w;
    ParseAnchoredIffShape(id + "@" + v + "@" + w, r);
  }

  /** A trailing lone `@` separates them too: an empty version for the
      split variant, a rejected token for the anchored one. */
  lemma ParsersDivergeOnTrailingAt(id: string)
    requires '@' !in id
    ensures ParseSplit(id + "@") == PackageRef(id, Some(""))
    ensures ParseAnchored(id + "@") == None
  {
    ParseSplitOfParts(id, "", "");
    assert id + "@" + "" + "" == id + "@";
    IndexOfAfterPrefix(id, '@', "");
    assert id + ['@'] + "" == id + "@";
  }

  /** On a token with at most one `@` that the anchored pattern accepts, the
      two variants produce the same reference. */
  lemma ParsersAgreeOnOneAt(token: string)
    requires ParseAnchored(token).Some?
    requires forall k, j :: 0 <= k < j < |token| && token[k] == '@' ==> token[j] != '@'
    ensures ParseAnchored(token) == Some(ParseSplit(token))
  {
    var r := ParseAnchored(token).value;
    if r.version.Some? {
      var v := r.version.value;
      assert token == r.id + "@" + v;
      assert token[|r.id|] == '@';
      assert '@' !in v by {
        forall j | 0 <= j < |v| ensures v[j] != '@' {
          assert v[j] == token[|r.id| + 1 + j];
        }
      }
      ParseSplitOfParts(r.id, v, "");
      assert r.id + "@" + v + "" == token;
    }
  }
}
