/**
 * `kobold init`: the `Cargo.toml` of a new package is made from a template
 * in which `:NAME:` and `:KOBOLD_VERSION:` stand for the package name and
 * the version of the CLI.
 */
module Init {
  import opened Wrappers

  const UNDEFINED_KEY := "undefined key"

  /** `chunks` joined with `:` between each two. */
  function Join(chunks: seq<string>): string
    requires |chunks| >= 1
  {
    if |chunks| == 1 then chunks[0] else chunks[0] + ":" + Join(chunks[1..])
  }

  predicate ColonFree(chunks: seq<string>)
  {
    forall i :: 0 <= i < |chunks| ==> ':' !in chunks[i]
  }

  /** `str::split(':')`: the pieces between the colons, at least one, joined back into `s`. */
  function Split(s: string): (chunks: seq<string>)
    ensures |chunks| >= 1 && ColonFree(chunks) && Join(chunks) == s
    ensures ':' !in s ==> chunks == [s]
  {
    if |s| == 0 then [""]
    else
      var rest := Split(s[1..]);
      assert s == [s[0]] + s[1..];
      if s[0] == ':' then
        JoinEmptyHead(rest);
        [""] + rest
      else
        JoinCharHead(s[0], rest);
        var chunks := [[s[0]] + rest[0]] + rest[1..];
        assert ColonFree(chunks) by {
          forall i | 0 <= i < |chunks| ensures ':' !in chunks[i] {
            if i > 0 {
              assert chunks[i] == rest[i];
            }
          }
        }
        chunks
  }

  /** An empty first piece joins as a leading colon. */
  lemma {:induction false} JoinEmptyHead(rest: seq<string>)
    requires |rest| >= 1
    ensures Join([""] + rest) == ":" + Join(rest)
  {
    assert ([""] + rest)[1..] == rest;
  }

  /** A character put before the first piece comes first in the joined text. */
  lemma {:induction false} JoinCharHead(c: char, rest: seq<string>)
    requires |rest| >= 1
    ensures Join([[c] + rest[0]] + rest[1..]) == [c] + Join(rest)
  {
    var chunks := [[c] + rest[0]] + rest[1..];
    if |rest| > 1 {
      assert chunks[1..] == rest[1..];
    }
  }

  /** Splitting pieces without a colon, joined with colons, gives those pieces back. */
  lemma {:induction false} SplitJoin(chunks: seq<string>)
    requires |chunks| >= 1 && ColonFree(chunks)
    ensures Split(Join(chunks)) == chunks
    decreases |Join(chunks)|
  {
    var c := chunks[0];
    if |chunks| == 1 {
      if ':' in c {
        assert false;
      }
    } else if |c| == 0 {
      var s := Join(chunks);
      assert s == [':'] + Join(chunks[1..]);
      assert s[1..] == Join(chunks[1..]);
      SplitJoin(chunks[1..]);
      assert [""] + chunks[1..] == chunks;
    } else {
      var s := Join(chunks);
      var tail := [c[1..]] + chunks[1..];
      assert tail[1..] == chunks[1..];
      assert ColonFree(tail) by {
        assert forall x :: x in c[1..] ==> x in c;
      }
      assert Join(tail) == c[1..] + ":" + Join(chunks[1..]);
      assert s == [c[0]] + Join(tail);
      assert s[1..] == Join(tail);
      SplitJoin(tail);
      assert c[0] != ':' by {
        assert c[0] in c;
      }
      assert [c[0]] + c[1..] == c;
      assert [[c[0]] + tail[0]] + tail[1..] == chunks;
    }
  }

  predicate IsKey(chunk: string)
  {
    chunk == "NAME" || chunk == "KOBOLD_VERSION"
  }

  /** What a key chunk becomes: the package name, the CLI version, or a panic. */
  function Lookup(key: string, name: string, version: string): (r: Result<string>)
    ensures r.Ok? <==> IsKey(key)
    ensures key == "NAME" ==> r == Ok(name)
    ensures key == "KOBOLD_VERSION" ==> r == Ok(version)
    ensures r.Panic? ==> r.message == UNDEFINED_KEY
  {
    if key == "NAME" then Ok(name)
    else if key == "KOBOLD_VERSION" then Ok(version)
    else Panic(UNDEFINED_KEY)
  }

  /**
   * The text made from the chunks: the even-numbered chunks as they are,
   * the odd-numbered ones looked up as keys, all in order; the first
   * undefined key panics.
   */
  function Fill(chunks: seq<string>, name: string, version: string): (r: Result<string>)
    ensures r.Ok? <==> forall i :: 0 <= i < |chunks| && i % 2 == 1 ==> IsKey(chunks[i])
    ensures r.Panic? ==> r.message == UNDEFINED_KEY
    decreases |chunks|
  {
    if |chunks| == 0 then Ok("")
    else
      var k := |chunks| - 1;
      var before := Fill(chunks[..k], name, version);
      assert forall i :: 0 <= i < k ==> chunks[..k][i] == chunks[i];
      if before.Panic? then before
      else if k % 2 == 0 then Ok(before.value + chunks[k])
      else match Lookup(chunks[k], name, version)
        case Ok(v) => Ok(before.value + v)
        case Panic(m) => Panic(m)
  }

  /**
   * `make_cargo_toml`: the template is split on `:` and the chunks taken in
   * turn, a flag telling a key from text; the result is the template filled
   * in, and a template without a colon is copied unchanged.
   */
  method MakeCargoToml(template: string, name: string, version: string) returns (r: Result<string>)
    ensures r == Fill(Split(template), name, version)
    ensures ':' !in template ==> r == Ok(template)
  {
    var chunks := Split(template);
    var out := "";
    var key := false;
    var i := 0;
    while i < |chunks|
      invariant i <= |chunks| && key == (i % 2 == 1)
      invariant Fill(chunks[..i], name, version) == Ok(out)
    {
      assert chunks[..i + 1][..i] == chunks[..i];
      if key {
        var chunk := chunks[i];
        if chunk == "NAME" {
          out := out + name;
        } else if chunk == "KOBOLD_VERSION" {
          out := out + version;
        } else {
          return Panic(UNDEFINED_KEY);
        }
      } else {
        out := out + chunks[i];
      }
      key := !key;
      i := i + 1;
    }
    assert chunks[..i] == chunks;
    r := Ok(out);
    if ':' !in template {
      assert chunks[..0] == [];
      assert "" + template == template;
    }
  }

  /** Text, one key, text: the key looked up between the two. */
  lemma FillAround(before: string, key: string, after: string, name: string, version: string)
    requires IsKey(key)
    ensures Fill([before, key, after], name, version) == Ok(before + Lookup(key, name, version).value + after)
  {
    var cs := [before, key, after];
    assert cs[..2] == [before, key] && cs[..2][..1] == [before] && cs[..2][..1][..0] == [];
    assert Fill([before], name, version) == Ok("" + before);
    assert "" + before == before;
  }

  /** `before:key:after` splits into those three pieces. */
  lemma SplitAround(before: string, key: string, after: string)
    requires ':' !in before && ':' !in key && ':' !in after
    ensures Split(before + ":" + key + ":" + after) == [before, key, after]
  {
    var cs := [before, key, after];
    assert Join(cs[1..]) == key + ":" + Join(cs[2..]);
    assert Join(cs) == before + ":" + key + ":" + after;
    SplitJoin(cs);
  }

  /**
   * Text around one `:NAME:` comes out with the package name in its place,
   * and around one `:KOBOLD_VERSION:` with the version.
   */
  lemma Substitute(before: string, key: string, after: string, name: string, version: string)
    requires ':' !in before && ':' !in after && IsKey(key)
    ensures key == "NAME" ==> Fill(Split(before + ":" + key + ":" + after), name, version) == Ok(before + name + after)
    ensures key == "KOBOLD_VERSION" ==>
      Fill(Split(before + ":" + key + ":" + after), name, version) == Ok(before + version + after)
  {
    assert ':' !in key;
    SplitAround(before, key, after);
    FillAround(before, key, after, name, version);
  }
}
