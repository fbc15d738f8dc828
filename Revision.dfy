/** The revision record of the landing service (`Revision` in
    src/lando/main/models/revision.py): the Phabricator revision and diff a
    landing request names, the patch built for it, its metadata, and the
    commit the landing worker made from it. */
module RevisionModel {
  import opened Text
  import opened Utf8

  /** `commit_id` is a column of at most 40 characters. */
  const MaxCommitIdLength := 40

  /** Python's truth value of an optional integer: `None` and `0` are false. */
  predicate Truthy(n: Option<int>) {
    n.Some? && n.value != 0
  }

  /** Python's `str()` of an optional integer: `"None"` when absent. */
  function OptionalIntToString(n: Option<int>): (s: string)
    ensures |s| >= 1
    ensures NoBrackets(s)
  {
    match n
    case None => "None"
    case Some(v) => IntToString(v)
  }

  /** The values a serialized revision holds. */
  datatype Value = Null | Int(i: int) | IntList(items: seq<int>)

  function OptionalValue(n: Option<int>): (v: Value)
    ensures v.Null? <==> n.None?
    ensures n.Some? ==> v == Int(n.value)
  {
    match n
    case None => Null
    case Some(x) => Int(x)
  }

  /** The keys of `serialize()`. */
  const SerializedKeys: set<string> :=
    {"id", "revision_id", "diff_id", "landing_jobs", "created_at", "updated_at"}

  class Revision {
    /** Primary key; `None` until the record is saved. */
    var id: Option<int>
    /** Phabricator revision and diff ids. */
    var revisionId: Option<int>
    var diffId: Option<int>
    var patch: string
    var patchData: map<string, string>
    var data: map<string, string>
    /** The commit the landing worker made from the patch. */
    var commitId: Option<string>
    /** Ids of the landing jobs the revision belongs to, in relation order. */
    var landingJobIds: seq<int>
    /** Timestamps; `None` until the record is saved. */
    var createdAt: Option<int>
    var updatedAt: Option<int>

    /** The column constraint on `commit_id`. */
    predicate Valid()
      reads this
    {
      commitId.None? || |commitId.value| <= MaxCommitIdLength
    }

    /** A new, unsaved revision: every column at its default. */
    constructor ()
      ensures Valid()
      ensures id == None && revisionId == None && diffId == None
      ensures patch == "" && patchData == map[] && data == map[]
      ensures commitId == None && landingJobIds == []
      ensures createdAt == None && updatedAt == None
    {
      id := None;
      revisionId := None;
      diffId := None;
      patch := "";
      patchData := map[];
      data := map[];
      commitId := None;
      landingJobIds := [];
      createdAt := None;
      updatedAt := None;
    }

    /** `__repr__` as written: when the revision id is truthy the Phabricator
        identifier carries a `>` of its own, so the text ends in `>>`. */
    function Repr(): (r: string)
      reads this
      ensures StartsWith(r, ReprHead(id))
      ensures Truthy(revisionId) <==> EndsWith(r, ">>")
      ensures !Truthy(revisionId) ==> r == "<Revision: " + OptionalIntToString(id) + ">"
      ensures Truthy(revisionId) ==> r == ReprHead(id) + PhabIdentifier(revisionId.value, diffId) + ">>"
    {
      var phab := if Truthy(revisionId) then PhabIdentifier(revisionId.value, diffId) + ">" else "";
      ReprEnds(ReprHead(id), phab);
      assert Truthy(revisionId) ==> ReprHead(id) + phab + ">" == ReprHead(id) + PhabIdentifier(revisionId.value, diffId) + ">>";
      ReprHead(id) + phab + ">"
    }

    /** `__repr__` with the identifier's stray `>` removed: one `<` and one
        `>` bracket the whole text, and the text as written is this one with
        a `>` too many exactly when the revision id is truthy. */
    function IntendedRepr(): (r: string)
      reads this
      ensures StartsWith(r, ReprHead(id))
      ensures CountChar(r, '<') == 1 && CountChar(r, '>') == 1
      ensures Truthy(revisionId) ==> Repr() == r + ">"
      ensures !Truthy(revisionId) ==> Repr() == r
    {
      var phab := if Truthy(revisionId) then PhabIdentifier(revisionId.value, diffId) else "";
      ReprEnds(ReprHead(id), phab);
      ReprBrackets(OptionalIntToString(id), phab);
      ReprHead(id) + phab + ">"
    }

    /** `patch_bytes`: the UTF-8 encoding of the patch, which decodes back to
        the patch exactly. */
    function PatchBytes(): (bs: seq<byte>)
      reads this
      ensures Decode(bs) == Some(patch)
      ensures |patch| <= |bs| <= 4 * |patch|
    {
      DecodeEncode(patch);
      Encode(patch)
    }

    /** `patch_string`: an alias of the patch text. */
    function PatchString(): (s: string)
      reads this
      ensures s == patch
      ensures Encode(s) == PatchBytes()
    {
      patch
    }

    /** `serialize()`: the ids, the landing jobs and the timestamps; the
        patch and its metadata are not part of it. */
    function Serialize(): (r: map<string, Value>)
      reads this
      ensures r.Keys == SerializedKeys
      ensures r["id"] == OptionalValue(id)
      ensures r["revision_id"] == OptionalValue(revisionId)
      ensures r["diff_id"] == OptionalValue(diffId)
      ensures r["landing_jobs"] == IntList(landingJobIds)
      ensures r["created_at"] == OptionalValue(createdAt)
      ensures r["updated_at"] == OptionalValue(updatedAt)
    {
      map["id" := OptionalValue(id),
          "revision_id" := OptionalValue(revisionId),
          "diff_id" := OptionalValue(diffId),
          "landing_jobs" := IntList(landingJobIds),
          "created_at" := OptionalValue(createdAt),
          "updated_at" := OptionalValue(updatedAt)]
    }

    /** `set_patch`: store the metadata and the patch the builder makes from
        the raw diff and that metadata. Nothing else changes. */
    method SetPatch(rawDiff: string, newPatchData: map<string, string>,
                    build: (string, map<string, string>) -> string)
      modifies this
      ensures patchData == newPatchData
      ensures patch == build(rawDiff, newPatchData)
      ensures id == old(id) && revisionId == old(revisionId) && diffId == old(diffId)
      ensures data == old(data) && commitId == old(commitId)
      ensures landingJobIds == old(landingJobIds)
      ensures createdAt == old(createdAt) && updatedAt == old(updatedAt)
      ensures Serialize() == old(Serialize())
      ensures old(Valid()) ==> Valid()
    {
      patchData := newPatchData;
      patch := build(rawDiff, patchData);
    }
  }

  predicate NoBrackets(s: string) {
    forall i :: 0 <= i < |s| ==> s[i] != '<' && s[i] != '>'
  }

  lemma NoBracketsAppend(a: string, b: string)
    requires NoBrackets(a) && NoBrackets(b)
    ensures NoBrackets(a + b)
  {
    assert forall i :: 0 <= i < |a + b| ==> (a + b)[i] == if i < |a| then a[i] else b[i - |a|];
  }

  /** The front of a repr: the class name and the primary key. */
  function ReprHead(id: Option<int>): (h: string)
    ensures |h| >= 1 && h[|h| - 1] != '>'
  {
    "<Revision: " + OptionalIntToString(id)
  }

  /** The Phabricator identifier ` [D<revision>-<diff>]`, without the `>`
      the source appends to it. */
  function PhabIdentifier(revisionId: int, diffId: Option<int>): (s: string)
    ensures NoBrackets(s)
  {
    var a, b := IntToString(revisionId), OptionalIntToString(diffId);
    assert NoBrackets(a);
    assert NoBrackets(" [D") && NoBrackets("-") && NoBrackets("]");
    NoBracketsAppend(" [D", a);
    NoBracketsAppend(" [D" + a, "-");
    NoBracketsAppend(" [D" + a + "-", b);
    NoBracketsAppend(" [D" + a + "-" + b, "]");
    " [D" + a + "-" + b + "]"
  }

  lemma ReprEnds(head: string, phab: string)
    requires |head| >= 1 && head[|head| - 1] != '>'
    ensures StartsWith(head + phab + ">", head)
    ensures StartsWith(head + phab + ">" + ">", head)
    ensures EndsWith(head + phab + ">" + ">", ">>")
    ensures phab == [] ==> !EndsWith(head + phab + ">", ">>")
    ensures phab != [] && phab[|phab| - 1] == '>' ==> EndsWith(head + phab + ">", ">>")
  {
    var r := head + phab + ">";
    assert r[..|head|] == head;
    assert (r + ">")[..|head|] == head;
    assert (r + ">")[|r + ">"| - 2..] == ">>";
    if phab == [] {
      assert r[|r| - 2] == head[|head| - 1];
    }
    if phab != [] && phab[|phab| - 1] == '>' {
      assert r[|r| - 2..] == ">>";
    }
  }

  /** Text without brackets, between one `<` and one `>`. */
  lemma Bracketed(body: string)
    requires NoBrackets(body)
    ensures CountChar("<" + body + ">", '<') == 1
    ensures CountChar("<" + body + ">", '>') == 1
  {
    CountCharAppend("<" + body, ">", '<');
    CountCharAppend("<", body, '<');
    CountCharAppend("<" + body, ">", '>');
    CountCharAppend("<", body, '>');
    CountCharAbsent(body, '<');
    CountCharAbsent(body, '>');
  }

  /** The brackets of a repr built from an id and an identifier that have
      none of their own. */
  lemma ReprBrackets(s: string, phab: string)
    requires NoBrackets(s) && NoBrackets(phab)
    ensures CountChar("<Revision: " + s + phab + ">", '<') == 1
    ensures CountChar("<Revision: " + s + phab + ">", '>') == 1
  {
    var name := "Revision: ";
    assert NoBrackets(name);
    NoBracketsAppend(name, s);
    NoBracketsAppend(name + s, phab);
    var body := name + s + phab;
    assert "<Revision: " + s + phab + ">" == "<" + body + ">";
    Bracketed(body);
  }

  /** The repr as written has one more `>` than `<` whenever the revision
      id is truthy, and is balanced otherwise. */
  lemma {:induction false} ReprUnbalanced(rev: Revision)
    ensures CountChar(rev.Repr(), '<') == 1
    ensures CountChar(rev.Repr(), '>') == if Truthy(rev.revisionId) then 2 else 1
  {
    var r := rev.IntendedRepr();
    if Truthy(rev.revisionId) {
      CountCharAppend(r, ">", '<');
      CountCharAppend(r, ">", '>');
    }
  }

  /** Revision 123, diff 456 of record 1 as written. */
  lemma ReprOfPhabRevision(rev: Revision)
    requires rev.id == Some(1) && rev.revisionId == Some(123) && rev.diffId == Some(456)
    ensures rev.Repr() == "<Revision: 1 [D123-456]>>"
  {
    assert IntToString(123) == "123";
    assert IntToString(456) == "456";
  }

  /** A revision id of 0 renders like an absent one. */
  lemma ReprOfFalsyRevision(rev: Revision)
    requires rev.id == Some(1) && (rev.revisionId == Some(0) || rev.revisionId == None)
    ensures rev.Repr() == "<Revision: 1>"
  {
    assert IntToString(1) == "1";
  }

  /** The record `get_from_revision_id` finds when several are stored: the
      first whose revision id matches. */
  function GetFromRevisionId(store: seq<Revision>, revisionId: int): (r: Option<Revision>)
    reads store
    ensures r.Some? <==> exists i :: 0 <= i < |store| && store[i].revisionId == Some(revisionId)
    ensures r.Some? ==> r.value in store && r.value.revisionId == Some(revisionId)
  {
    if store == [] then None
    else if store[0].revisionId == Some(revisionId) then Some(store[0])
    else
      var r := GetFromRevisionId(store[1..], revisionId);
      assert forall i :: 1 <= i < |store| ==> store[i] == store[1..][i - 1];
      r
  }

  /** The unique constraint on `revision_id`. */
  ghost predicate UniqueRevisionIds(store: seq<Revision>)
    reads store
  {
    forall i, j ::
      (0 <= i < |store| && 0 <= j < |store| && store[i].revisionId.Some? &&
       store[i].revisionId == store[j].revisionId) ==> store[i] == store[j]
  }

  /** Under the unique constraint the lookup is well defined: it returns the
      one stored record with that revision id. */
  lemma GetFromRevisionIdUnique(store: seq<Revision>, rev: Revision, revisionId: int)
    requires UniqueRevisionIds(store)
    requires rev in store && rev.revisionId == Some(revisionId)
    ensures GetFromRevisionId(store, revisionId) == Some(rev)
  {
    var r := GetFromRevisionId(store, revisionId);
    var i :| 0 <= i < |store| && store[i] == rev;
    var j :| 0 <= j < |store| && store[j] == r.value;
  }

  /** `new_from_patch`: a new revision holding the built patch and its
      metadata, every other column at its default. */
  method NewFromPatch(rawDiff: string, patchData: map<string, string>,
                      build: (string, map<string, string>) -> string)
    returns (rev: Revision)
    ensures fresh(rev) && rev.Valid()
    ensures rev.patch == build(rawDiff, patchData) && rev.patchData == patchData
    ensures rev.id == None && rev.revisionId == None && rev.diffId == None
    ensures rev.data == map[] && rev.commitId == None && rev.landingJobIds == []
  {
    rev := new Revision();
    rev.SetPatch(rawDiff, patchData, build);
  }

  /** A revision whose patch is the fixture's `LARGE_UTF8_THING` (the
      million-emoji body of `LARGE_PATCH`, without its headers and diff
      lines): a million four-octet characters give four million octets, and
      `patch_bytes` decodes back to the patch. */
  lemma LargePatchBytes(rev: Revision)
    requires rev.patch == Repeat('\U{1F601}', 1000000)
    ensures |rev.PatchBytes()| == 4000000
    ensures Decode(rev.PatchBytes()) == Some(rev.PatchString())
  {
    LargeUtf8Thing();
  }
}
