/** What the model answers for concrete requests. */
module Scenarios {
  import opened Wrappers
  import opened Records
  import opened Clean
  import opened Upstream
  import opened Resolver

  /** Surrounding blanks are dropped and letters lowercased. */
  lemma CleanExample()
    ensures CleanLocation("  7th West, Oakland, CA  ") == "7th west, oakland, ca"
  {
    var t := "7th West, Oakland, CA";
    var s := "  " + t + "  ";
    assert s == "  7th West, Oakland, CA  ";
    assert TrimAt(t, t, 0) by {
      assert t[..0] == [] && t[0..|t|] == t && t[|t|..] == [];
    }
    PaddedTrimAt("  ", t, "  ", t, 0);
    CleanCharacterized(s, t, 2);
    LowerWords(t);
  }

  lemma LowerWords(t: string)
    requires t == "7th West, Oakland, CA"
    ensures Lower(t) == "7th west, oakland, ca"
  {
    assert t == "7th " + "West, " + "Oakland, " + "CA";
    LowerConcat("7th " + "West, " + "Oakland, ", "CA");
    LowerConcat("7th " + "West, ", "Oakland, ");
    LowerConcat("7th ", "West, ");
    assert Lower("7th ") == "7th ";
    assert Lower("West, ") == "west, ";
    assert Lower("Oakland, ") == "oakland, ";
    assert Lower("CA") == "ca";
  }

  /** A one-letter key is rejected, however much padding surrounds it. */
  lemma ShortKeyRejected(cache: Cache, env: Env)
    ensures Resolve("  a ", cache, env) == Resolution(InvalidArgument, cache, 0)
  {
    var s := "  a ";
    assert s[..2] == "  " && s[2..3] == "a" && s[3..] == " ";
    assert TrimAt("a", s, 2);
    CleanCharacterized(s, "a", 2);
  }

  /** One character outside the Basic Multilingual Plane has length 2 in JavaScript and is accepted. */
  lemma AstralCharacterAccepted(cache: Cache, env: Env)
    ensures Resolve("\U{1F600}", cache, env).outcome != InvalidArgument
  {
    var s := "\U{1F600}";
    assert TrimAt(s, s, 0);
    CleanCharacterized(s, s, 0);
  }

  /** A fresh lookup of a street address against a provider that knows it. */
  lemma FreshLookupExample(raw: string, response: Response, cache: Cache, writeFails: bool, execResult: bool)
    requires raw == "7th West, Oakland, CA" && "7th west, oakland, ca" !in cache
    requires response == Body(Some([GeoResult("7th West, Oakland, CA 94607, USA", Some(LatLng(37.77493, -122.251686)))]))
    ensures
      var r := Resolve(raw, cache, Env(false, response, writeFails, execResult));
      r.outcome == Ok(LatLon("7th west, oakland, ca", "7th West, Oakland, CA 94607, USA", 37.77493, -122.251686, Found))
      && r.upstreamCalls == 1
  {
    assert TrimAt(raw, raw, 0) by {
      assert raw[..0] == [] && raw[0..|raw|] == raw && raw[|raw|..] == [];
    }
    CleanCharacterized(raw, raw, 0);
    LowerWords(raw);
    var key := CleanLocation(raw);
    assert |key| == 21;
    assert LongEnough(key);
    assert Usable(response);
    var env := Env(false, response, writeFails, execResult);
    assert Miss(key, cache, env);
  }
}
