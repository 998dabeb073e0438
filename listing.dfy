/** `getIndex`: the requester's records under one parent, newest first,
    `MAX_FILES_PER_PAGE` at a time.

    The aggregation `$match` / `$sort: { _id: -1 }` / `$skip` / `$limit` is
    modelled as a function: `NewestFirst` lists the matching ids in
    descending order (ids grow with creation time), `PageOf` cuts out one
    window of it. */
module Listing {
  import opened Wrappers
  import opened ObjectIds
  import opened JsText
  import opened Files

  /** `MAX_FILES_PER_PAGE`. */
  const MaxFilesPerPage: nat := 20

  /** `req.query.parentId || ROOT_FOLDER_ID`, turned into the parent value
      the `$match` stage compares with. */
  function ParentFilter(q: Option<string>): (p: Parent)
    ensures p.Root? <==> !Present(q) || q.value == RootFolderId
    ensures p.Under? ==> p.folder == ObjectIdOf(q.value)
  {
    var parentId := if Present(q) then q.value else RootFolderId;
    if parentId == RootFolderId then Root else Under(ObjectIdOf(parentId))
  }

  /** The `$match` stage: the record is the requester's and sits directly
      under `parent`. */
  predicate Listed(files: FilesMap, user: ObjectId, parent: Parent, k: ObjectId) {
    k in files && files[k].userId == user && files[k].parent == parent
  }

  /** The matching ids below `below`, largest first. */
  function NewestFirst(files: FilesMap, user: ObjectId, parent: Parent, below: nat): (r: seq<ObjectId>)
    requires below <= IdBound
    ensures forall i | 0 <= i < |r| :: r[i] < below && Listed(files, user, parent, r[i])
    ensures forall i, j | 0 <= i < j < |r| :: r[i] > r[j]
  {
    if below == 0 then []
    else
      var k: ObjectId := below - 1;
      var older := NewestFirst(files, user, parent, k);
      if Listed(files, user, parent, k) then [k] + older else older
  }

  /** Nothing that matches is left out. */
  lemma {:induction false} NewestFirstComplete(files: FilesMap, user: ObjectId, parent: Parent,
                                               below: nat, k: ObjectId)
    requires below <= IdBound
    requires k < below && Listed(files, user, parent, k)
    ensures k in NewestFirst(files, user, parent, below)
  {
    if k < below - 1 {
      NewestFirstComplete(files, user, parent, below - 1, k);
    }
  }

  /** All the matching ids, newest first. */
  function Matching(files: FilesMap, user: ObjectId, parent: Parent): (r: seq<ObjectId>)
    ensures forall k :: k in r <==> Listed(files, user, parent, k)
    ensures forall i, j | 0 <= i < j < |r| :: r[i] > r[j]
  {
    var r := NewestFirst(files, user, parent, IdBound);
    forall k | Listed(files, user, parent, k) ensures k in r {
      NewestFirstComplete(files, user, parent, IdBound, k);
    }
    r
  }

  predicate StrictlyDescending(s: seq<ObjectId>) {
    forall i, j | 0 <= i < j < |s| :: s[i] > s[j]
  }

  /** How many of `total` items page `page` holds: all that are left after
      skipping the earlier pages, at most `MAX_FILES_PER_PAGE`. */
  function PageLength(total: nat, page: nat): nat {
    if page * MaxFilesPerPage >= total then 0
    else if total - page * MaxFilesPerPage < MaxFilesPerPage then total - page * MaxFilesPerPage
    else MaxFilesPerPage
  }

  /** `$skip: page * MAX_FILES_PER_PAGE` then `$limit: MAX_FILES_PER_PAGE`. */
  function PageOf(s: seq<ObjectId>, page: nat): (r: seq<ObjectId>)
    ensures |r| <= MaxFilesPerPage
    ensures forall i | 0 <= i < |r| :: page * MaxFilesPerPage + i < |s| && r[i] == s[page * MaxFilesPerPage + i]
    ensures |r| == PageLength(|s|, page)
  {
    var skip := page * MaxFilesPerPage;
    if skip >= |s| then []
    else if |s| - skip < MaxFilesPerPage then s[skip..]
    else s[skip..skip + MaxFilesPerPage]
  }

  /** Two different pages of a list without repeats share no element. */
  lemma PagesDisjoint(s: seq<ObjectId>, p: nat, q: nat)
    requires StrictlyDescending(s)
    requires p != q
    ensures forall x :: x in PageOf(s, p) ==> x !in PageOf(s, q)
  {
  }

  /** Every record on a page is newer than every record on the next page. */
  lemma NextPageIsOlder(s: seq<ObjectId>, p: nat, q: nat)
    requires StrictlyDescending(s)
    requires q == p + 1
    ensures forall i, j | 0 <= i < |PageOf(s, p)| && 0 <= j < |PageOf(s, q)| ::
      PageOf(s, p)[i] > PageOf(s, q)[j]
  {
  }

  /** Every element of the list is on page `index / 20`. */
  lemma EveryItemOnItsPage(s: seq<ObjectId>, i: nat)
    requires i < |s|
    ensures s[i] in PageOf(s, i / MaxFilesPerPage)
  {
    var p := i / MaxFilesPerPage;
    var off := i - p * MaxFilesPerPage;
    assert 0 <= off < MaxFilesPerPage;
    assert PageOf(s, p)[off] == s[i];
  }

  /** The `$project` stage: the root parent becomes `0`. */
  function Project(files: FilesMap, ids: seq<ObjectId>): (r: seq<FileView>)
    requires forall i | 0 <= i < |ids| :: ids[i] in files
    ensures |r| == |ids|
    ensures forall i | 0 <= i < |ids| :: r[i] == ViewOf(Render(ids[i]), files[ids[i]])
    ensures forall i | 0 <= i < |ids| :: IsValidId(r[i].id) && ObjectIdOf(r[i].id) == ids[i]
  {
    RenderAll(ids);
    seq(|ids|, i requires 0 <= i < |ids| => ViewOf(Render(ids[i]), files[ids[i]]))
  }

  lemma RenderAll(ids: seq<ObjectId>)
    ensures forall i | 0 <= i < |ids| :: IsValidId(Render(ids[i])) && ObjectIdOf(Render(ids[i])) == ids[i]
  {
    forall i | 0 <= i < |ids| ensures IsValidId(Render(ids[i])) && ObjectIdOf(Render(ids[i])) == ids[i] {
      RenderRoundTrip(ids[i]);
    }
  }

  /** `Number.parseInt(req.query.page || '0', 10) || 0`, as written: a
      missing or non-numeric page is 0, but a negative number goes through. */
  function PageAsWritten(q: Option<string>): (n: int)
    ensures !Present(q) ==> n == 0
    ensures Present(q) && ParseInt(q.value).None? ==> n == 0
    ensures Present(q) && (forall i | 0 <= i < |q.value| :: !IsDigit(q.value[i])) ==> n == 0
    ensures Present(q) && ParseInt(q.value).Some? ==> n == ParseInt(q.value).value
  {
    var text := if Present(q) then q.value else "0";
    ParseIntUnsigned("0");
    match ParseInt(text)
    case None => 0
    case Some(v) => v
  }

  /** `$skip` must be a signed 64-bit integer: MongoDB accepts values
      below 2^63 only. */
  const SkipBound: int := 0x8000_0000_0000_0000

  /** Why a listing can fail as written: MongoDB refuses a `$skip` that is
      negative or that does not fit in a signed 64-bit integer. */
  datatype ListingError = NegativeSkip | SkipOverflow

  /** `getIndex` as written: the aggregation is sent with `$skip: page * 20`
      whatever the sign or the size of `page`. */
  function IndexAsWritten(files: FilesMap, user: ObjectId, parentQ: Option<string>, pageQ: Option<string>)
    : (r: Result<seq<FileView>, ListingError>)
    ensures r.Failure? <==>
      PageAsWritten(pageQ) < 0 || PageAsWritten(pageQ) * MaxFilesPerPage >= SkipBound
    ensures r.Failure? ==> (r.error == NegativeSkip <==> PageAsWritten(pageQ) < 0)
    ensures r.Success? ==> |r.value| <= MaxFilesPerPage
  {
    var page := PageAsWritten(pageQ);
    var skip := page * (MaxFilesPerPage as int);
    if skip < 0 then Failure(NegativeSkip)
    else if skip >= SkipBound then Failure(SkipOverflow)
    else Success(Project(files, PageOf(Matching(files, user, ParentFilter(parentQ)), page)))
  }

  /** The page `?page=-1` makes the listing fail, whatever the collection
      holds. */
  lemma NegativePageFails(files: FilesMap, user: ObjectId, parentQ: Option<string>)
    ensures PageAsWritten(Some("-1")) == -1
    ensures IndexAsWritten(files, user, parentQ, Some("-1")) == Failure(NegativeSkip)
  {
    ParseIntNegative("-1", "1");
    assert DigitPrefix("1") == "1";
    assert DecimalValue("1") == 1;
  }

  /** The page number as intended: every value that is not a non-negative
      number, negative ones included, counts as page 0. */
  function PageNumber(q: Option<string>): (n: nat)
    ensures !Present(q) ==> n == 0
    ensures Present(q) && ParseInt(q.value).None? ==> n == 0
    ensures Present(q) && (forall i | 0 <= i < |q.value| :: !IsDigit(q.value[i])) ==> n == 0
    ensures Present(q) && ParseInt(q.value).Some? && ParseInt(q.value).value >= 0 ==>
      n == ParseInt(q.value).value
    ensures Present(q) && ParseInt(q.value).Some? && ParseInt(q.value).value < 0 ==> n == 0
  {
    var page := PageAsWritten(q);
    if page < 0 then 0 else page
  }

  /** A page number written in decimal is read back as itself. */
  lemma PageNumberOfDecimal(p: nat)
    ensures PageNumber(Some(DecimalString(p))) == p
  {
    ParseIntOfDecimal(p, "");
    assert DecimalString(p) + "" == DecimalString(p);
  }

  /** A negative page number, which the source passes on to `$skip`, is
      read as page 0. */
  lemma PageNumberOfNegative(p: nat)
    ensures PageAsWritten(Some("-" + DecimalString(p))) == -(p as int)
    ensures PageNumber(Some("-" + DecimalString(p))) == 0
  {
    var u := DecimalString(p);
    ParseIntNegative("-" + u, u);
    DigitPrefixOfDigits(u, "");
    assert u + "" == u;
    DecimalRoundTrip(p);
  }

  /** `getIndex` with the page number as intended. */
  function Index(files: FilesMap, user: ObjectId, parentQ: Option<string>, pageQ: Option<string>)
    : (r: seq<FileView>)
    ensures |r| <= MaxFilesPerPage
    ensures forall i | 0 <= i < |r| ::
      && IsValidId(r[i].id)
      && Listed(files, user, ParentFilter(parentQ), ObjectIdOf(r[i].id))
      && r[i] == ViewOf(r[i].id, files[ObjectIdOf(r[i].id)])
    ensures forall i, j | 0 <= i < j < |r| :: ObjectIdOf(r[i].id) > ObjectIdOf(r[j].id)
    ensures var s := Matching(files, user, ParentFilter(parentQ));
      && |r| == PageLength(|s|, PageNumber(pageQ))
      && forall i | 0 <= i < |r| :: ObjectIdOf(r[i].id) == s[PageNumber(pageQ) * MaxFilesPerPage + i]
  {
    var ids := PageIds(files, user, parentQ, PageNumber(pageQ));
    Project(files, ids)
  }

  /** Where the page number is not negative and its `$skip` fits in 64
      bits, the intended listing is the one the source computes. */
  lemma IndexAgreesWithSource(files: FilesMap, user: ObjectId, parentQ: Option<string>, pageQ: Option<string>)
    requires PageAsWritten(pageQ) >= 0
    requires PageAsWritten(pageQ) * MaxFilesPerPage < SkipBound
    ensures IndexAsWritten(files, user, parentQ, pageQ) == Success(Index(files, user, parentQ, pageQ))
  {
  }

  /** A page written in decimal whose `$skip` does not fit in 64 bits, such
      as `?page=1000000000000000000`, makes the listing fail as written,
      whatever the collection holds. */
  lemma HugePageFails(files: FilesMap, user: ObjectId, parentQ: Option<string>, p: nat)
    requires p * MaxFilesPerPage >= SkipBound
    ensures PageAsWritten(Some(DecimalString(p))) == p
    ensures IndexAsWritten(files, user, parentQ, Some(DecimalString(p))) == Failure(SkipOverflow)
  {
    ParseIntOfDecimal(p, "");
    assert DecimalString(p) + "" == DecimalString(p);
  }

  /** The ids a list holds. */
  ghost function Elements(s: seq<ObjectId>): set<ObjectId> {
    set x | x in s
  }

  /** A list without repeats has as many distinct elements as entries. */
  lemma {:induction false} DescendingElements(s: seq<ObjectId>)
    requires StrictlyDescending(s)
    ensures |Elements(s)| == |s|
  {
    if s != [] {
      assert StrictlyDescending(s[1..]);
      DescendingElements(s[1..]);
      assert Elements(s) == Elements(s[1..]) + {s[0]};
      assert s[0] !in Elements(s[1..]);
    }
  }

  /** No listing is longer than the collection. */
  lemma MatchingFitsCollection(files: FilesMap, user: ObjectId, parent: Parent)
    ensures |Matching(files, user, parent)| <= |files|
  {
    var s := Matching(files, user, parent);
    DescendingElements(s);
    assert Elements(s) <= files.Keys;
    SubsetCard(Elements(s), files.Keys);
    assert |files.Keys| == |files|;
  }

  lemma {:induction false} SubsetCard(a: set<ObjectId>, b: set<ObjectId>)
    requires a <= b
    ensures |a| <= |b|
  {
    if a != {} {
      var x :| x in a;
      SubsetCard(a - {x}, b - {x});
    }
  }

  /** As intended, a page past the end of the listing, however large its
      number, is empty: a collection smaller than 2^63 records makes every
      page the source refuses an empty page. */
  lemma HugePageIsEmpty(files: FilesMap, user: ObjectId, parentQ: Option<string>, p: nat)
    requires |files| < SkipBound
    requires p * MaxFilesPerPage >= SkipBound
    ensures Index(files, user, parentQ, Some(DecimalString(p))) == []
  {
    PageNumberOfDecimal(p);
    MatchingFitsCollection(files, user, ParentFilter(parentQ));
  }

  /** The ids shown on one page of the listing. */
  function PageIds(files: FilesMap, user: ObjectId, parentQ: Option<string>, page: nat): (r: seq<ObjectId>)
    ensures |r| <= MaxFilesPerPage
    ensures forall i | 0 <= i < |r| :: Listed(files, user, ParentFilter(parentQ), r[i])
    ensures StrictlyDescending(r)
    ensures var s := Matching(files, user, ParentFilter(parentQ));
      && |r| == PageLength(|s|, page)
      && forall i | 0 <= i < |r| :: r[i] == s[page * MaxFilesPerPage + i]
  {
    PageOf(Matching(files, user, ParentFilter(parentQ)), page)
  }

  /** Pages 0 and 1 (and any two different pages) never show the same
      record; each record of page p+1 is older than all of page p; and
      every matching record is shown on some page. */
  lemma PagesPartitionTheListing(files: FilesMap, user: ObjectId, parentQ: Option<string>, p: nat, q: nat)
    ensures p != q ==> forall k :: k in PageIds(files, user, parentQ, p) ==> k !in PageIds(files, user, parentQ, q)
    ensures q == p + 1 ==>
      forall i, j | 0 <= i < |PageIds(files, user, parentQ, p)| && 0 <= j < |PageIds(files, user, parentQ, q)| ::
        PageIds(files, user, parentQ, p)[i] > PageIds(files, user, parentQ, q)[j]
    ensures forall k | Listed(files, user, ParentFilter(parentQ), k) ::
      exists page: nat :: k in PageIds(files, user, parentQ, page)
  {
    var s := Matching(files, user, ParentFilter(parentQ));
    if p != q {
      PagesDisjoint(s, p, q);
    }
    if q == p + 1 {
      NextPageIsOlder(s, p, q);
    }
    forall k | Listed(files, user, ParentFilter(parentQ), k)
      ensures exists page: nat :: k in PageIds(files, user, parentQ, page)
    {
      var i :| 0 <= i < |s| && s[i] == k;
      EveryItemOnItsPage(s, i);
      assert k in PageIds(files, user, parentQ, i / MaxFilesPerPage);
    }
  }
}
