/** Worked examples of the archive naming. */
module PackagerExamples {
  import opened Wrappers
  import opened Json
  import opened Packager

  lemma ExampleSanitizeName()
    ensures Sanitize("My App/v2") == "My_App_v2"
  {
    assert Sanitize("My Ap") == "My_Ap";
    assert Sanitize("p/v2") == "p_v2";
    SanitizeAppend("My Ap", "p/v2");
    assert "My App/v2" == "My Ap" + "p/v2";
  }

  lemma ExampleSanitizeRelease()
    ensures Sanitize("1.0 beta") == "1.0_beta"
  {
    SanitizeAppend("1.0", " beta");
    assert "1.0 beta" == "1.0" + " beta";
  }

  /** The archive name from the two segments. */
  lemma ZipNameOf(b: Json, n: string, r: string)
    requires NameSegment(b, "name", "brick") == Some(n)
    requires NameSegment(b, "release", "release") == Some(r)
    ensures ZipName(b) == Some("brick_" + n + "_" + r + ".zip")
  {
  }

  /** Looking up either member of a two-member object. */
  lemma LookupPair(k1: string, v1: Json, k2: string, v2: Json)
    requires k1 != k2
    ensures Lookup([(k1, v1), (k2, v2)], k1) == Some(v1)
    ensures Lookup([(k1, v1), (k2, v2)], k2) == Some(v2)
  {
    assert [(k1, v1), (k2, v2)][1..] == [(k2, v2)];
  }

  lemma FieldSegment(b: Json, field: string, fallback: string, s: string)
    requires Truthy(b) && Get(b, field) == Some(JString(s)) && s != []
    ensures NameSegment(b, field, fallback) == Some(Sanitize(s))
  {
  }

  /** A manifest holding a non-empty name and release names its archive after both, sanitised. */
  lemma ZipNameOfFields(n: string, r: string)
    requires n != [] && r != []
    ensures ZipName(JObject([("name", JString(n)), ("release", JString(r))]))
         == Some("brick_" + Sanitize(n) + "_" + Sanitize(r) + ".zip")
  {
    var b := JObject([("name", JString(n)), ("release", JString(r))]);
    LookupPair("name", JString(n), "release", JString(r));
    FieldSegment(b, "name", "brick", n);
    FieldSegment(b, "release", "release", r);
    ZipNameOf(b, Sanitize(n), Sanitize(r));
  }

  /** A name with a space and a slash, and a release with a space. */
  lemma ExampleZipName(n: string, r: string)
    requires n == "My App/v2" && r == "1.0 beta"
    ensures ZipName(JObject([("name", JString(n)), ("release", JString(r))])) == Some("brick_My_App_v2_1.0_beta.zip")
  {
    assert "brick_" + "My_App_v2" + "_" + "1.0_beta" + ".zip" == "brick_My_App_v2_1.0_beta.zip";
    ZipNameOfFields(n, r);
    ExampleSanitizeName();
    ExampleSanitizeRelease();
  }

  lemma DefaultNameSegment()
    ensures NameSegment(DefaultBrick, "name", "brick") == Some("brick")
  {
    assert Truthy(DefaultBrick);
    assert Get(DefaultBrick, "name") == Some(JString(""));
    assert Sanitize("brick") == "brick";
  }

  lemma DefaultReleaseSegment()
    ensures NameSegment(DefaultBrick, "release", "release") == Some("release")
  {
    assert Truthy(DefaultBrick);
    assert Get(DefaultBrick, "release") == Some(JString(""));
    assert Sanitize("release") == "release" by {
      SanitizeAppend("rel", "ease");
      assert "release" == "rel" + "ease";
    }
  }

  /** A missing (falsy) manifest falls back to the default one, whose empty name and release give `brick` and `release`. */
  lemma MissingManifestZipName(brick: Json)
    requires !Truthy(brick)
    ensures ZipName(BrickOrDefault(brick)) == Some("brick_brick_release.zip")
  {
    assert "brick_" + "brick" + "_" + "release" + ".zip" == "brick_brick_release.zip";
    DefaultNameSegment();
    DefaultReleaseSegment();
    ZipNameOf(DefaultBrick, "brick", "release");
  }
}
