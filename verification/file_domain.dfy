/** The file operations of the catalog's domain layer. `insert` validates
    the payload, writes the row, then walks the tag list: each tag is
    created, and linked to the file only when creating it failed because
    it already exists. */
module FileDomain {
  import opened Wrappers
  import opened Text
  import opened Catalog
  import TagDomain

  const NameEmpty := "Name is empty"
  const IdentifierEmpty := "Identifier is empty"
  const SizeNegative := "Size can't be negative"
  const MimeTypeEmpty := "Mime_type is empty"

  /** The columns `insert` writes for a payload. */
  function Columns(data: FileInfo): (f: NewFile)
    ensures f.name == data.name && f.identifier == data.identifier
    ensures f.size == data.size && f.mimeType == data.mimeType
  {
    NewFile(data.name, data.identifier, data.size, data.mimeType)
  }

  /** The payload passes `insert`'s four checks. */
  predicate ValidInfo(data: FileInfo) {
    !IsBlank(data.name) && !IsBlank(data.identifier) && data.size >= 0 && !IsBlank(data.mimeType)
  }

  /** A `create_tag` answer that reports an existing tag. */
  predicate Duplicate(answer: Result<TagRow, DbError>) {
    answer.Err? && IsDuplicate(answer.error)
  }

  /** The position of the first blank tag, or the number of tags. */
  function FirstBlank(tags: seq<string>): (n: nat)
    ensures n <= |tags|
    ensures forall i :: 0 <= i < n ==> !IsBlank(tags[i])
    ensures n < |tags| ==> IsBlank(tags[n])
  {
    if tags == [] || IsBlank(tags[0]) then 0 else 1 + FirstBlank(tags[1..])
  }

  /** The tag names created by a query sequence, in order. */
  function CreatedNames(calls: Log): seq<string> {
    if calls == [] then [] else (if calls[0].CreateTag? then [calls[0].tagName] else []) + CreatedNames(calls[1..])
  }

  lemma {:induction false} CreatedNamesAppend(a: Log, b: Log)
    ensures CreatedNames(a + b) == CreatedNames(a) + CreatedNames(b)
  {
    if a == [] {
      assert a + b == b;
    } else {
      assert (a + b)[1..] == a[1..] + b;
      CreatedNamesAppend(a[1..], b);
    }
  }

  /** The tag loop issues only tag creations and links. */
  predicate OnlyTagCalls(calls: Log) {
    forall k :: 0 <= k < |calls| ==> calls[k].CreateTag? || calls[k].LinkFileWithTag?
  }

  /** Every link follows immediately the creation of the same tag, for this
      file, and that creation was answered as a duplicate. */
  ghost predicate LinkAfterDuplicate(db: Database, log: Log, identifier: string, calls: Log) {
    forall k :: 0 <= k < |calls| && calls[k].LinkFileWithTag? ==>
      && k > 0 && calls[k - 1] == DbCall.CreateTag(calls[k].tagName) && calls[k].fileId == identifier
      && Duplicate(db.createTag(log + calls[..k - 1], calls[k].tagName))
  }

  /** Every creation answered as a duplicate is followed by its link. */
  ghost predicate DuplicateThenLink(db: Database, log: Log, identifier: string, calls: Log) {
    forall k :: 0 <= k < |calls| && calls[k].CreateTag? && Duplicate(db.createTag(log + calls[..k], calls[k].tagName)) ==>
      k + 1 < |calls| && calls[k + 1] == DbCall.LinkFileWithTag(identifier, calls[k].tagName)
  }

  /** The shape of the queries the tag loop issues after `log`: a tag is
      linked exactly when its creation failed as a duplicate. */
  ghost predicate LinkedOnDuplicate(db: Database, log: Log, identifier: string, calls: Log) {
    OnlyTagCalls(calls) && LinkAfterDuplicate(db, log, identifier, calls) && DuplicateThenLink(db, log, identifier, calls)
  }

  /** The queries for one tag whose creation returned `answer`. */
  function TagBlock(identifier: string, tag: string, answer: Result<TagRow, DbError>): (block: Log)
    ensures |block| == 1 || |block| == 2
    ensures block[0] == DbCall.CreateTag(tag)
    ensures |block| == 2 <==> Duplicate(answer)
    ensures |block| == 2 ==> block[1] == DbCall.LinkFileWithTag(identifier, tag)
  {
    [DbCall.CreateTag(tag)] + (if Duplicate(answer) then [DbCall.LinkFileWithTag(identifier, tag)] else [])
  }

  lemma BlockShape(identifier: string, tag: string, answer: Result<TagRow, DbError>)
    ensures var block := TagBlock(identifier, tag, answer);
            && OnlyTagCalls(block)
            && (block == [DbCall.CreateTag(tag)] || block == [DbCall.CreateTag(tag), DbCall.LinkFileWithTag(identifier, tag)])
  {
  }

  /** What the queries before position `k` of `block + rest` look like from
      inside `rest`. */
  lemma PrefixShift(log: Log, block: Log, rest: Log, k: nat)
    requires |block| <= k <= |block| + |rest|
    ensures log + (block + rest)[..k] == (log + block) + rest[..k - |block|]
  {
    assert (block + rest)[..k] == block + rest[..k - |block|];
  }

  lemma ConsOnly(block: Log, rest: Log)
    requires OnlyTagCalls(block) && OnlyTagCalls(rest)
    ensures OnlyTagCalls(block + rest)
  {
    forall k | 0 <= k < |block + rest| ensures (block + rest)[k].CreateTag? || (block + rest)[k].LinkFileWithTag? {
      if k >= |block| {
        assert (block + rest)[k] == rest[k - |block|];
      }
    }
  }

  lemma ConsLinkAfter(db: Database, log: Log, identifier: string, tag: string, rest: Log)
    requires LinkAfterDuplicate(db, log + TagBlock(identifier, tag, db.createTag(log, tag)), identifier, rest)
    ensures LinkAfterDuplicate(db, log, identifier, TagBlock(identifier, tag, db.createTag(log, tag)) + rest)
  {
    var block := TagBlock(identifier, tag, db.createTag(log, tag));
    var calls := block + rest;
    forall k | 0 <= k < |calls| && calls[k].LinkFileWithTag?
      ensures && k > 0 && calls[k - 1] == DbCall.CreateTag(calls[k].tagName) && calls[k].fileId == identifier
              && Duplicate(db.createTag(log + calls[..k - 1], calls[k].tagName))
    {
      if k < |block| {
        assert k == 1;
        assert calls[..0] == [];
        assert log + calls[..0] == log;
      } else {
        var j := k - |block|;
        assert calls[k] == rest[j];
        assert j > 0;
        assert calls[k - 1] == rest[j - 1];
        PrefixShift(log, block, rest, k - 1);
      }
    }
  }

  lemma ConsDuplicateThen(db: Database, log: Log, identifier: string, tag: string, rest: Log)
    requires DuplicateThenLink(db, log + TagBlock(identifier, tag, db.createTag(log, tag)), identifier, rest)
    ensures DuplicateThenLink(db, log, identifier, TagBlock(identifier, tag, db.createTag(log, tag)) + rest)
  {
    var block := TagBlock(identifier, tag, db.createTag(log, tag));
    var calls := block + rest;
    forall k | 0 <= k < |calls| && calls[k].CreateTag? && Duplicate(db.createTag(log + calls[..k], calls[k].tagName))
      ensures k + 1 < |calls| && calls[k + 1] == DbCall.LinkFileWithTag(identifier, calls[k].tagName)
    {
      if k < |block| {
        assert k == 0;
        assert calls[..0] == [];
        assert log + calls[..0] == log;
      } else {
        var j := k - |block|;
        assert calls[k] == rest[j];
        assert calls[k + 1] == rest[j + 1] by {
          PrefixShift(log, block, rest, k);
        }
        PrefixShift(log, block, rest, k);
      }
    }
  }

  lemma PrefixCons<T>(s: seq<T>, n: nat)
    requires s != [] && n < |s|
    ensures s[..n + 1] == [s[0]] + s[1..][..n]
  {
    assert s[..n + 1] == s[..1] + s[1..n + 1];
  }

  lemma FirstBlankCons(tags: seq<string>)
    requires tags != [] && !IsBlank(tags[0])
    ensures tags[..FirstBlank(tags)] == [tags[0]] + tags[1..][..FirstBlank(tags[1..])]
  {
    PrefixCons(tags, FirstBlank(tags[1..]));
  }

  lemma CreatedByBlock(identifier: string, tag: string, block: Log)
    requires block == [DbCall.CreateTag(tag)] || block == [DbCall.CreateTag(tag), DbCall.LinkFileWithTag(identifier, tag)]
    ensures CreatedNames(block) == [tag]
  {
    if |block| == 2 {
      var tail := block[1..];
      assert tail == [DbCall.LinkFileWithTag(identifier, tag)];
      assert tail[1..] == [];
      assert CreatedNames(tail) == [] + CreatedNames(tail[1..]);
      assert CreatedNames(tail) == [];
    } else {
      assert block[1..] == [];
    }
  }

  /** One more non-blank tag adds its name to the created names. */
  lemma WalkStep(identifier: string, tags: seq<string>, block: Log, rest: Log)
    requires tags != [] && !IsBlank(tags[0])
    requires block == [DbCall.CreateTag(tags[0])] || block == [DbCall.CreateTag(tags[0]), DbCall.LinkFileWithTag(identifier, tags[0])]
    requires CreatedNames(rest) == tags[1..][..FirstBlank(tags[1..])]
    ensures CreatedNames(block + rest) == tags[..FirstBlank(tags)]
  {
    CreatedNamesAppend(block, rest);
    CreatedByBlock(identifier, tags[0], block);
    FirstBlankCons(tags);
  }

  /** The loop of `insert` over the tag list, after `log`. A blank tag
      panics inside `create_tag`, ending the request with the queries
      issued so far; otherwise the loop always completes. */
  function WalkTags(db: Database, log: Log, identifier: string, tags: seq<string>): (r: Run<()>)
    requires !IsBlank(identifier)
    ensures r.outcome.Panicked? <==> FirstBlank(tags) < |tags|
    ensures r.outcome.Panicked? ==> r.outcome.message == TagDomain.TagnameEmpty
    ensures CreatedNames(r.calls) == tags[..FirstBlank(tags)]
    ensures LinkedOnDuplicate(db, log, identifier, r.calls)
    decreases |tags|
  {
    if tags == [] then Run(Returned(()), [])
    else
      var created := TagDomain.CreateTag(db, log, tags[0]);
      match created.outcome
      case Panicked(message) =>
        assert FirstBlank(tags) == 0;
        Run(Panicked(message), [])
      case Returned(answer) =>
        var block := TagBlock(identifier, tags[0], answer);
        var rest := WalkTags(db, log + block, identifier, tags[1..]);
        BlockShape(identifier, tags[0], answer);
        WalkStep(identifier, tags, block, rest.calls);
        ConsOnly(block, rest.calls);
        ConsLinkAfter(db, log, identifier, tags[0], rest.calls);
        ConsDuplicateThen(db, log, identifier, tags[0], rest.calls);
        Run(rest.outcome, block + rest.calls)
  }

  /** The link the loop issues goes through `tag::link_file_with_tag`,
      whose guards cannot fire there: the identifier was checked by
      `insert` and the tag by `create_tag`. */
  lemma LinkGuardsPass(db: Database, log: Log, identifier: string, tag: string)
    requires !IsBlank(identifier) && !IsBlank(tag)
    ensures TagDomain.LinkFileWithTag(db, log, identifier, tag).outcome.Returned?
    ensures TagDomain.LinkFileWithTag(db, log, identifier, tag).calls == [DbCall.LinkFileWithTag(identifier, tag)]
  {
  }

  /** `insert`. The four checks run in order and panic; then the row is
      written with exactly the payload's columns. A write error is returned
      unchanged and no tag is looked at; after a successful write the
      result is `Ok(())` whatever happens to the tags, unless a blank tag
      panics. */
  function Insert(db: Database, data: FileInfo): (r: Run<Result<(), DbError>>)
    ensures IsBlank(data.name) ==> r == Run(Panicked(NameEmpty), [])
    ensures !IsBlank(data.name) && IsBlank(data.identifier) ==> r == Run(Panicked(IdentifierEmpty), [])
    ensures !IsBlank(data.name) && !IsBlank(data.identifier) && data.size < 0 ==> r == Run(Panicked(SizeNegative), [])
    ensures !IsBlank(data.name) && !IsBlank(data.identifier) && data.size >= 0 && IsBlank(data.mimeType)
            ==> r == Run(Panicked(MimeTypeEmpty), [])
    ensures ValidInfo(data) ==> |r.calls| > 0 && r.calls[0] == InsertFile(Columns(data))
    ensures ValidInfo(data) && db.insertFile([], Columns(data)).Err?
            ==> r == Run(Returned(Err(db.insertFile([], Columns(data)).error)), [InsertFile(Columns(data))])
    ensures ValidInfo(data) && db.insertFile([], Columns(data)).Ok?
            ==> && r.outcome == (if FirstBlank(data.tags) < |data.tags| then Panicked(TagDomain.TagnameEmpty) else Returned(Ok(())))
                && CreatedNames(r.calls[1..]) == data.tags[..FirstBlank(data.tags)]
                && LinkedOnDuplicate(db, [InsertFile(Columns(data))], data.identifier, r.calls[1..])
  {
    if IsBlank(data.name) then Run(Panicked(NameEmpty), [])
    else if IsBlank(data.identifier) then Run(Panicked(IdentifierEmpty), [])
    else if data.size < 0 then Run(Panicked(SizeNegative), [])
    else if IsBlank(data.mimeType) then Run(Panicked(MimeTypeEmpty), [])
    else
      var write := InsertFile(Columns(data));
      match db.insertFile([], Columns(data))
      case Err(e) => Run(Returned(Err(e)), [write])
      case Ok(_) =>
        var walk := WalkTags(db, [write], data.identifier, data.tags);
        assert ([write] + walk.calls)[1..] == walk.calls;
        match walk.outcome
        case Panicked(message) => Run(Panicked(message), [write] + walk.calls)
        case Returned(_) => Run(Returned(Ok(())), [write] + walk.calls)
  }

  /** Once the payload passes the checks, the only panic left is a blank
      tag name. */
  lemma ValidInsertPanicsOnTag(db: Database, data: FileInfo)
    requires ValidInfo(data)
    ensures Insert(db, data).outcome.Panicked?
            ==> FirstBlank(data.tags) < |data.tags| && Insert(db, data).outcome.message == TagDomain.TagnameEmpty
  {
  }

  /** `remove`: the lookup's answer is only logged, so the delete is issued
      whether or not the file was found. */
  function Remove(db: Database, identifier: string): (r: Run<Result<(), DbError>>)
    ensures IsBlank(identifier) <==> r.outcome.Panicked?
    ensures IsBlank(identifier) ==> r == Run(Panicked(IdentifierEmpty), [])
    ensures !IsBlank(identifier)
            ==> && r.calls == [GetFileByIdentifier(identifier), RemoveFileByIdentifier(identifier)]
                && r.outcome == Returned(db.removeFileByIdentifier([GetFileByIdentifier(identifier)], identifier))
  {
    if IsBlank(identifier) then Run(Panicked(IdentifierEmpty), [])
    else
      var lookup := GetFileByIdentifier(identifier);
      var _ := db.getFileByIdentifier([], identifier);
      Run(Returned(db.removeFileByIdentifier([lookup], identifier)), [lookup, RemoveFileByIdentifier(identifier)])
  }

  /** Two databases that answer the delete alike give `remove` the same
      result, whatever their lookups say. */
  lemma RemoveIgnoresLookup(a: Database, b: Database, identifier: string)
    requires forall log, id :: a.removeFileByIdentifier(log, id) == b.removeFileByIdentifier(log, id)
    ensures Remove(a, identifier) == Remove(b, identifier)
  {
  }

  /** `get`. */
  function Get(db: Database, identifier: string): (r: Run<Result<FileRow, DbError>>)
    ensures IsBlank(identifier) <==> r.outcome.Panicked?
    ensures IsBlank(identifier) ==> r == Run(Panicked(IdentifierEmpty), [])
    ensures !IsBlank(identifier) ==> r == Run(Returned(db.getFileByIdentifier([], identifier)), [GetFileByIdentifier(identifier)])
  {
    if IsBlank(identifier) then Run(Panicked(IdentifierEmpty), [])
    else Run(Returned(db.getFileByIdentifier([], identifier)), [GetFileByIdentifier(identifier)])
  }

  /** `get_all`: the rows as the database lists them. */
  function GetAll(db: Database): Run<Result<seq<FileRow>, DbError>>
  {
    Run(Returned(db.getFiles([])), [GetFiles])
  }
}
