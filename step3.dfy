/**
 * The artifact packager of the export step: it reads the three drafts,
 * defaults the missing ones, and delivers either three loose files or one
 * archive holding the same three entries under a sanitised name.
 */
module Packager {
  import opened Wrappers
  import opened JsText
  import opened Json
  import opened LocalStorage
  import opened PersistentSlot
  import opened JsonString
  import opened Drafts

  datatype Mode = Multiple | Zip

  datatype FileOut = FileOut(name: string, content: string)

  /** What one press of the download action delivers. */
  datatype Delivery =
    | Downloads(files: seq<FileOut>)
    | Archive(name: string, entries: seq<FileOut>)
    | NoDelivery

  const TemplateFile: string := "template.sh"
  const ReadmeFile: string := "README.md"
  const BrickFile: string := "brick.json"

  /** The manifest used when the stored one is missing (falsy): eight empty fields, in this order. */
  const DefaultBrick: Json := JObject([
    ("name", JString("")), ("os", JString("")), ("version", JString("")),
    ("variant", JString("")), ("description", JString("")), ("release", JString("")),
    ("author", JString("")), ("contact", JString(""))])

  /** `brick || {name: '', ...}`. */
  function BrickOrDefault(b: Json): Json
  {
    if Truthy(b) then b else DefaultBrick
  }

  /** The three entries, in delivery order: script, document, manifest pretty-printed with a two-space indent. */
  function Bundle(tpl: string, md: string, b: Json): seq<FileOut>
  {
    [FileOut(TemplateFile, tpl), FileOut(ReadmeFile, md), FileOut(BrickFile, Pretty(b))]
  }

  /** A character the archive-name pattern keeps: `[A-Za-z0-9._-]`. */
  predicate AllowedChar(c: char)
  {
    ('a' <= c <= 'z') || ('A' <= c <= 'Z') || ('0' <= c <= '9') || c == '-' || c == '_' || c == '.'
  }

  /** The number of UTF-16 code units of a character. */
  function Utf16Units(c: char): nat
  {
    if c as int >= 0x1_0000 then 2 else 1
  }

  /** The length JavaScript reports for a string: its UTF-16 code units. */
  function Utf16Length(s: string): nat
  {
    if s == [] then 0 else Utf16Units(s[0]) + Utf16Length(s[1..])
  }

  /**
   * `replace(/[^a-zA-Z0-9-_.]/g, '_')`. The pattern works on UTF-16 code
   * units, so a character outside the Basic Multilingual Plane, being two
   * code units, becomes two underscores.
   */
  function SanitizeChar(c: char): string
  {
    if AllowedChar(c) then [c] else if c as int >= 0x1_0000 then "__" else "_"
  }

  function Sanitize(s: string): string
  {
    if s == [] then [] else SanitizeChar(s[0]) + Sanitize(s[1..])
  }

  predicate AllAllowed(s: string)
  {
    forall i :: 0 <= i < |s| ==> AllowedChar(s[i])
  }

  lemma Utf16LengthAppend(a: string, b: string)
    ensures Utf16Length(a + b) == Utf16Length(a) + Utf16Length(b)
  {
    if a != [] {
      assert (a + b)[0] == a[0];
      assert (a + b)[1..] == a[1..] + b;
      Utf16LengthAppend(a[1..], b);
    } else {
      assert a + b == b;
    }
  }

  lemma AllAllowedAppend(a: string, b: string)
    requires AllAllowed(a) && AllAllowed(b)
    ensures AllAllowed(a + b)
  {
    assert forall i :: 0 <= i < |a + b| ==> (a + b)[i] == if i < |a| then a[i] else b[i - |a|];
  }

  /** The sanitiser keeps the length in code units and leaves only allowed characters. */
  lemma {:induction false} SanitizeShape(s: string)
    ensures Utf16Length(Sanitize(s)) == Utf16Length(s)
    ensures AllAllowed(Sanitize(s))
  {
    if s != [] {
      SanitizeShape(s[1..]);
      Utf16LengthAppend(SanitizeChar(s[0]), Sanitize(s[1..]));
      AllAllowedAppend(SanitizeChar(s[0]), Sanitize(s[1..]));
    }
  }

  /** A string of allowed characters is left as it is, and only such a string is. */
  lemma {:induction false} SanitizeFixedIffAllowed(s: string)
    ensures Sanitize(s) == s <==> AllAllowed(s)
  {
    if s != [] {
      SanitizeFixedIffAllowed(s[1..]);
      if AllowedChar(s[0]) {
        assert Sanitize(s) == [s[0]] + Sanitize(s[1..]);
        assert s == [s[0]] + s[1..];
        assert AllAllowed(s) <==> AllAllowed(s[1..]) by {
          assert forall i :: 1 <= i < |s| ==> s[i] == s[1..][i - 1];
        }
      } else {
        assert !AllAllowed(s);
        assert Sanitize(s)[0] == '_' != s[0];
      }
    }
  }

  /** Sanitising twice is sanitising once. */
  lemma SanitizeIdempotent(s: string)
    ensures Sanitize(Sanitize(s)) == Sanitize(s)
  {
    SanitizeShape(s);
    SanitizeFixedIffAllowed(Sanitize(s));
  }

  /**
   * `((b && b[field]) || fallback).replace(...)`: an absent or falsy field
   * takes the fallback; a truthy value that is not a string has no `replace`
   * and throws (`None`).
   */
  function NameSegment(b: Json, field: string, fallback: string): Option<string>
  {
    var v := if Truthy(b) then Get(b, field) else Some(b);
    if !TruthyOpt(v) then Some(Sanitize(fallback))
    else if v.value.JString? then Some(Sanitize(v.value.s))
    else None
  }

  /** `` `brick_${safeName}_${safeRelease}.zip` ``, or `None` when a segment throws. */
  function ZipName(b: Json): Option<string>
  {
    match (NameSegment(b, "name", "brick"), NameSegment(b, "release", "release"))
    case (Some(n), Some(r)) => Some("brick_" + n + "_" + r + ".zip")
    case _ => None
  }

  /**
   * The delivery `handleDownload` makes for the given drafts. In zip mode the
   * archive is delivered only when its asynchronous generation succeeds
   * (`archiveOk`); its failure is not handled and delivers nothing.
   */
  function Package(mode: Mode, tpl: string, md: string, brick: Json, archiveOk: bool): Delivery
  {
    var b := BrickOrDefault(brick);
    if mode == Multiple then Downloads(Bundle(tpl, md, b))
    else match ZipName(b)
      case None => NoDelivery
      case Some(name) => if archiveOk then Archive(name, Bundle(tpl, md, b)) else NoDelivery
  }

  /** Loose mode: exactly three files, script, document and manifest, in that order. */
  lemma LooseDelivery(tpl: string, md: string, brick: Json, archiveOk: bool)
    ensures var d := Package(Multiple, tpl, md, brick, archiveOk);
      && d.Downloads? && |d.files| == 3
      && d.files[0] == FileOut("template.sh", tpl)
      && d.files[1] == FileOut("README.md", md)
      && d.files[2] == FileOut("brick.json", Pretty(BrickOrDefault(brick)))
  {
  }

  /** Zip mode carries the same three entries as loose mode, under the sanitised archive name. */
  lemma ArchiveDelivery(tpl: string, md: string, brick: Json)
    requires ZipName(BrickOrDefault(brick)).Some?
    ensures var d := Package(Zip, tpl, md, brick, true);
      && d == Archive(ZipName(BrickOrDefault(brick)).value, Package(Multiple, tpl, md, brick, true).files)
  {
  }

  /** Sanitising distributes over concatenation. */
  lemma {:induction false} SanitizeAppend(a: string, b: string)
    ensures Sanitize(a + b) == Sanitize(a) + Sanitize(b)
  {
    if a != [] {
      assert (a + b)[0] == a[0];
      assert (a + b)[1..] == a[1..] + b;
      SanitizeAppend(a[1..], b);
    } else {
      assert a + b == b;
    }
  }

  lemma SanitizeNonEmpty(s: string)
    requires s != []
    ensures |Sanitize(s)| >= 1
  {
  }

  /** A segment is never empty and holds allowed characters only. */
  lemma NameSegmentShape(b: Json, field: string, fallback: string)
    requires fallback != [] && AllAllowed(fallback)
    requires NameSegment(b, field, fallback).Some?
    ensures var n := NameSegment(b, field, fallback).value; n != [] && AllAllowed(n)
  {
    var v := if Truthy(b) then Get(b, field) else Some(b);
    if !TruthyOpt(v) {
      SanitizeFixedIffAllowed(fallback);
    } else {
      SanitizeShape(v.value.s);
      SanitizeNonEmpty(v.value.s);
    }
  }

  /** The archive name is `brick_` + a non-empty segment + `_` + a non-empty segment + `.zip`, made of allowed characters only. */
  lemma ZipNameShape(b: Json)
    requires ZipName(b).Some?
    ensures var z := ZipName(b).value;
      && |z| >= 12 && z[..6] == "brick_" && z[|z| - 4..] == ".zip" && AllAllowed(z)
  {
    var n := NameSegment(b, "name", "brick").value;
    var r := NameSegment(b, "release", "release").value;
    assert AllAllowed("brick") && AllAllowed("release");
    NameSegmentShape(b, "name", "brick");
    NameSegmentShape(b, "release", "release");
    assert AllAllowed("brick_") && AllAllowed("_") && AllAllowed(".zip");
    AllAllowedAppend("brick_", n);
    AllAllowedAppend("brick_" + n, "_");
    AllAllowedAppend("brick_" + n + "_", r);
    AllAllowedAppend("brick_" + n + "_" + r, ".zip");
    var z := "brick_" + n + "_" + r + ".zip";
    assert ZipName(b).value == z;
    assert z[..6] == "brick_";
    assert z[|z| - 4..] == ".zip";
  }

  /** An archive under construction: JSZip's entry list. */
  class ZipArchive {
    var entries: seq<FileOut>

    constructor ()
      ensures entries == []
    {
      entries := [];
    }

    /** `zip.file(name, content)`: an entry of the same name is replaced in place, a new one goes last. */
    method AddFile(name: string, content: string)
      modifies this
      ensures entries == PutFile(old(entries), name, content)
    {
      entries := PutFile(entries, name, content);
    }
  }

  function PutFile(entries: seq<FileOut>, name: string, content: string): seq<FileOut>
  {
    if entries == [] then [FileOut(name, content)]
    else if entries[0].name == name then [FileOut(name, content)] + entries[1..]
    else [entries[0]] + PutFile(entries[1..], name, content)
  }

  /** Three adds under distinct names into an empty archive give the three entries in order. */
  lemma PutFileDistinct(f1: FileOut, f2: FileOut, f3: FileOut)
    requires f1.name != f2.name && f1.name != f3.name && f2.name != f3.name
    ensures PutFile(PutFile(PutFile([], f1.name, f1.content), f2.name, f2.content), f3.name, f3.content) == [f1, f2, f3]
  {
    var e1 := PutFile([], f1.name, f1.content);
    assert e1 == [f1];
    assert e1[1..] == [];
    var e2 := PutFile(e1, f2.name, f2.content);
    assert e2 == [f1] + PutFile([], f2.name, f2.content);
    assert e2 == [f1, f2];
    assert e2[1..] == [f2];
    var e3 := PutFile(e2, f3.name, f3.content);
    assert e3 == [f1] + PutFile([f2], f3.name, f3.content);
  }

  /** The export step: its own three draft slots, the chosen mode and the "files ready" dialog flag. */
  class Step3 {
    const template: Slot<string>
    const markdown: Slot<string>
    const brick: Slot<Json>
    var mode: Mode
    var openAfter: bool

    /**
     * Mounting the step mounts three slots with a 200 ms debounce: the two
     * text drafts with initial '' and the manifest with initial `null`.
     */
    constructor Mount(storage: Storage, parse: string -> Option<Json>)
      ensures fresh(template) && fresh(markdown) && fresh(brick)
      ensures template.key == TemplateKey && markdown.key == MarkdownKey && brick.key == BrickKey
      ensures template.initial == "" && markdown.initial == "" && brick.initial == JNull
      ensures template.debounce == 200 && markdown.debounce == 200 && brick.debounce == 200
      ensures template.storage == storage && markdown.storage == storage && brick.storage == storage
      ensures template.state == InitialValue(storage.entries, TemplateKey, "", ParseStringLiteral)
      ensures markdown.state == InitialValue(storage.entries, MarkdownKey, "", ParseStringLiteral)
      ensures brick.state == InitialValue(storage.entries, BrickKey, JNull, parse)
      ensures template.encode == Quote && template.decode == ParseStringLiteral
      ensures markdown.encode == Quote && markdown.decode == ParseStringLiteral
      ensures brick.encode == Stringify && brick.decode == parse
      ensures template.pending && markdown.pending && brick.pending
      ensures mode == Multiple && !openAfter
    {
      template := new Slot.Mount(storage, TemplateKey, "", 200, Quote, ParseStringLiteral);
      markdown := new Slot.Mount(storage, MarkdownKey, "", 200, Quote, ParseStringLiteral);
      brick := new Slot.Mount(storage, BrickKey, JNull, 200, Stringify, parse);
      mode := Multiple;
      openAfter := false;
    }

    method SetMode(m: Mode)
      modifies this`mode
      ensures mode == m
    {
      mode := m;
    }

    /**
     * `handleDownload`: delivers `Package` of the current drafts and, when
     * something was delivered, opens the "files ready" dialog. The drafts are
     * only read: no slot and no stored entry changes.
     */
    method HandleDownload(archiveOk: bool) returns (d: Delivery)
      modifies this`openAfter
      ensures d == Package(mode, template.state, markdown.state, brick.state, archiveOk)
      ensures openAfter == (old(openAfter) || d != NoDelivery)
    {
      var tpl := template.state;
      var md := markdown.state;
      var b := BrickOrDefault(brick.state);
      if mode == Multiple {
        var files := [FileOut(TemplateFile, tpl)];
        files := files + [FileOut(ReadmeFile, md)];
        files := files + [FileOut(BrickFile, Pretty(b))];
        d := Downloads(files);
        openAfter := true;
        return;
      }
      var zip := new ZipArchive();
      zip.AddFile(TemplateFile, tpl);
      zip.AddFile(ReadmeFile, md);
      zip.AddFile(BrickFile, Pretty(b));
      PutFileDistinct(FileOut(TemplateFile, tpl), FileOut(ReadmeFile, md), FileOut(BrickFile, Pretty(b)));
      assert zip.entries == Bundle(tpl, md, b);
      var name := ZipName(b);
      if name.None? {
        d := NoDelivery;
      } else if archiveOk {
        d := Archive(name.value, zip.entries);
        openAfter := true;
      } else {
        d := NoDelivery;
      }
    }
  }
}
