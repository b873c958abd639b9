/**
 * The materials database endpoint (save-materials.php): validation of a
 * submitted database, the backup taken before each save and its
 * retention of the ten newest backups, the GET answer (with a default
 * database when there is none yet) and the POST save sequence.
 *
 * JSON decoding, the file system and the clock are outside the model: a
 * submission reaches it decoded, the backup directory's listing (in
 * `glob` order, with modification times) and the outcome of each file
 * operation are parameters.
 */
module MaterialsStore {
  import opened Wrappers
  import opened Text

  // ---------------------------------------------------------------------
  // Array keys
  // ---------------------------------------------------------------------

  /**
   * A PHP array key. Decoding a JSON object into an array turns each key
   * that is a canonical decimal integer ("0", "42", "-7", but not "007"
   * or "+1") into an integer key.
   */
  datatype Key = IntKey(n: int) | StrKey(s: string)

  /** A canonical, non-negative decimal integer: digits, no leading zero unless it is "0". */
  predicate CanonicalDigits(s: string)
  {
    |s| > 0 && AllDigits(s) && (s[0] != '0' || |s| == 1)
  }

  function ArrayKey(s: string): (k: Key)
    ensures k.StrKey? ==> k.s == s
  {
    if CanonicalDigits(s) then IntKey(DigitsValue(s))
    else if |s| > 1 && s[0] == '-' && CanonicalDigits(s[1..]) && s[1] != '0' then IntKey(-(DigitsValue(s[1..]) as int))
    else StrKey(s)
  }

  /** The key as string interpolation prints it. */
  function KeyText(k: Key): string
  {
    match k
    case IntKey(n) => if n < 0 then "-" + NatToString(-n) else NatToString(n)
    case StrKey(s) => s
  }

  /** A key prints as the JSON name it came from. */
  lemma KeyTextOfArrayKey(s: string)
    ensures KeyText(ArrayKey(s)) == s
  {
    if CanonicalDigits(s) {
      CanonicalRoundTrip(s);
    } else if |s| > 1 && s[0] == '-' && CanonicalDigits(s[1..]) && s[1] != '0' {
      CanonicalRoundTrip(s[1..]);
      PositiveValue(s[1..]);
      assert s == "-" + s[1..];
    }
  }

  lemma {:induction false} PositiveValue(s: string)
    requires CanonicalDigits(s) && s[0] != '0'
    ensures DigitsValue(s) > 0
    decreases |s|
  {
    if |s| > 1 {
      var p := s[..|s| - 1];
      assert p[0] == s[0];
      PositiveValue(p);
    }
  }

  lemma {:induction false} CanonicalRoundTrip(s: string)
    requires CanonicalDigits(s)
    ensures NatToString(DigitsValue(s)) == s
    decreases |s|
  {
    if |s| > 1 {
      var p := s[..|s| - 1];
      var d := DigitValue(s[|s| - 1]);
      assert p[0] == s[0];
      PositiveValue(p);
      CanonicalRoundTrip(p);
      var n := DigitsValue(s);
      assert n == DigitsValue(p) * 10 + d;
      assert n / 10 == DigitsValue(p) && n % 10 == d;
      assert DigitChar(d) == s[|s| - 1];
      assert s == p + [s[|s| - 1]];
    }
  }

  // ---------------------------------------------------------------------
  // Validation
  // ---------------------------------------------------------------------

  /** A JSON scalar as `material_id` may hold it; `None` when missing or null. */
  datatype Scalar = Str(s: string) | Int(n: int) | OtherScalar

  /**
   * One submitted material: its `material_id`, and whether each of the
   * other required fields is set (present and not null).
   */
  datatype Material = Material(
    materialID: Option<Scalar>,
    hasCategory: bool,
    hasCommonName: bool,
    hasPhysicalProperties: bool,
    hasEconomicProperties: bool)

  /**
   * A decoded submission. `materials` is `None` when it is missing or not
   * an array; otherwise its entries in order, under their array keys. A
   * decoded PHP array holds each key once (`DistinctKeys`).
   */
  datatype Submission = Submission(
    materials: Option<seq<(Key, Material)>>,
    hasVersion: bool,
    categoriesIsArray: bool)

  /** No key appears twice among the entries, as in any PHP array. */
  predicate DistinctKeys(entries: seq<(Key, Material)>)
  {
    forall i, j :: 0 <= i < j < |entries| ==> entries[i].0 != entries[j].0
  }

  /** PHP's strict `===` between a set `material_id` and an array key. */
  predicate SameAsKey(id: Scalar, k: Key)
  {
    match k
    case IntKey(n) => id == Int(n)
    case StrKey(s) => id == Str(s)
  }

  /** The first problem of one material, if it has one. */
  function MaterialProblem(k: Key, m: Material): (r: Option<string>)
    ensures r.None? <==> m.materialID.Some? && SameAsKey(m.materialID.value, k) && m.hasCategory
                         && m.hasCommonName && m.hasPhysicalProperties && m.hasEconomicProperties
  {
    var id := KeyText(k);
    if m.materialID.None? || !SameAsKey(m.materialID.value, k) then Some("Material ID mismatch for material: " + id)
    else if !m.hasCategory then Some("Missing category for material: " + id)
    else if !m.hasCommonName then Some("Missing common name for material: " + id)
    else if !m.hasPhysicalProperties then Some("Missing physical properties for material: " + id)
    else if !m.hasEconomicProperties then Some("Missing economic properties for material: " + id)
    else None
  }

  predicate MaterialIsValid(entry: (Key, Material))
  {
    MaterialProblem(entry.0, entry.1).None?
  }

  /** The problem of the first invalid material, in order. */
  function FirstProblem(materials: seq<(Key, Material)>): (r: Option<string>)
    ensures r.None? <==> forall i :: 0 <= i < |materials| ==> MaterialIsValid(materials[i])
  {
    if materials == [] then None
    else if MaterialProblem(materials[0].0, materials[0].1).Some? then MaterialProblem(materials[0].0, materials[0].1)
    else
      var rest := FirstProblem(materials[1..]);
      assert forall i :: 1 <= i < |materials| ==> materials[i] == materials[1..][i - 1];
      rest
  }

  /** What `validateMaterialsData` reports: the first of its checks that fails, or `None`. */
  function ValidationError(data: Submission): Option<string>
  {
    if data.materials.None? then Some("Missing or invalid 'materials' array")
    else if !data.hasVersion then Some("Missing version information")
    else if !data.categoriesIsArray then Some("Missing or invalid 'categories' array")
    else FirstProblem(data.materials.value)
  }

  predicate Valid(data: Submission)
  {
    data.materials.Some? && data.hasVersion && data.categoriesIsArray
    && forall i :: 0 <= i < |data.materials.value| ==> MaterialIsValid(data.materials.value[i])
  }

  /** The loop of `validateMaterialsData`, returning at the first failing check. */
  method ValidateMaterialsData(data: Submission) returns (error: Option<string>)
    ensures error == ValidationError(data)
    ensures error.None? <==> Valid(data)
  {
    if data.materials.None? {
      return Some("Missing or invalid 'materials' array");
    }
    if !data.hasVersion {
      return Some("Missing version information");
    }
    if !data.categoriesIsArray {
      return Some("Missing or invalid 'categories' array");
    }
    var materials := data.materials.value;
    var i := 0;
    while i < |materials|
      invariant 0 <= i <= |materials|
      invariant FirstProblem(materials) == FirstProblem(materials[i..])
      invariant forall j :: 0 <= j < i ==> MaterialIsValid(materials[j])
    {
      var problem := MaterialProblem(materials[i].0, materials[i].1);
      if problem.Some? {
        return problem;
      }
      assert materials[i..][1..] == materials[i + 1..];
      i := i + 1;
    }
    return None;
  }

  /**
   * A material stored under a numeric name passes only when its
   * `material_id` is the JSON number, never when it is the same digits
   * as a JSON string: "42" as a key is the integer 42.
   */
  lemma NumericNameNeedsNumericID(m: Material)
    requires m.materialID == Some(Str("42"))
    ensures MaterialProblem(ArrayKey("42"), m) == Some("Material ID mismatch for material: 42")
  {
    assert CanonicalDigits("42");
    assert DigitsValue("42") == 42 by {
      assert "42"[..1] == "4";
    }
    var k := ArrayKey("42");
    assert k == IntKey(42);
    KeyTextOfArrayKey("42");
    assert !SameAsKey(Str("42"), k);
    assert MaterialProblem(k, m) == Some("Material ID mismatch for material: " + KeyText(k));
    assert "Material ID mismatch for material: " + "42" == "Material ID mismatch for material: 42";
  }

  // ---------------------------------------------------------------------
  // Backups
  // ---------------------------------------------------------------------

  /** How many backups are kept. */
  const KeptBackups: nat := 10

  datatype Backup = Backup(name: string, mtime: int)

  predicate Ascending(files: seq<Backup>)
  {
    forall i, j :: 0 <= i < j < |files| ==> files[i].mtime <= files[j].mtime
  }

  /** `usort` by modification time, oldest first (stable, so equal times keep listing order). */
  function SortByTime(files: seq<Backup>): (r: seq<Backup>)
    ensures multiset(r) == multiset(files) && |r| == |files|
    ensures Ascending(r)
  {
    if files == [] then []
    else
      var front := SortByTime(files[..|files| - 1]);
      assert files == files[..|files| - 1] + [files[|files| - 1]];
      InsertByTime(front, files[|files| - 1])
  }

  /** `b` inserted after every file no newer than it. */
  function InsertByTime(sorted: seq<Backup>, b: Backup): (r: seq<Backup>)
    requires Ascending(sorted)
    ensures multiset(r) == multiset(sorted) + multiset{b} && |r| == |sorted| + 1
    ensures Ascending(r)
  {
    if sorted == [] || sorted[|sorted| - 1].mtime <= b.mtime then
      sorted + [b]
    else
      var front := sorted[..|sorted| - 1];
      var last := sorted[|sorted| - 1];
      assert sorted == front + [last];
      var ins := InsertByTime(front, b);
      NoneNewerThanLast(front, last, b, ins);
      AppendNewest(ins, last);
      ins + [last]
  }

  /** Inserting an older file among files no newer than `last` keeps them all no newer than `last`. */
  lemma NoneNewerThanLast(front: seq<Backup>, last: Backup, b: Backup, ins: seq<Backup>)
    requires Ascending(front + [last]) && b.mtime < last.mtime
    requires multiset(ins) == multiset(front) + multiset{b}
    ensures forall x :: x in multiset(ins) ==> x.mtime <= last.mtime
  {
    forall x | x in multiset(ins)
      ensures x.mtime <= last.mtime
    {
      if x in multiset(front) {
        var k :| 0 <= k < |front| && front[k] == x;
        assert (front + [last])[k] == x && (front + [last])[|front|] == last;
      }
    }
  }

  lemma AppendNewest(xs: seq<Backup>, last: Backup)
    requires Ascending(xs)
    requires forall x :: x in multiset(xs) ==> x.mtime <= last.mtime
    ensures Ascending(xs + [last])
  {
    forall i, j | 0 <= i < j < |xs| + 1
      ensures (xs + [last])[i].mtime <= (xs + [last])[j].mtime
    {
      if j == |xs| {
        assert xs[i] in multiset(xs);
      }
    }
  }

  /**
   * The pruning of `createBackup`: with more than ten backups listed,
   * sort them oldest first and delete all but the last ten. The backups
   * deleted are never newer than those kept, and none is lost or made up.
   */
  method PruneBackups(listing: seq<Backup>) returns (removed: seq<Backup>, kept: seq<Backup>)
    ensures |listing| <= KeptBackups ==> removed == [] && kept == listing
    ensures |listing| > KeptBackups ==> |kept| == KeptBackups && |removed| == |listing| - KeptBackups
    ensures multiset(removed) + multiset(kept) == multiset(listing)
    ensures forall r, k :: r in removed && k in kept ==> r.mtime <= k.mtime
  {
    if |listing| <= KeptBackups {
      return [], listing;
    }
    var sorted := SortByTime(listing);
    var cut := |sorted| - KeptBackups;
    removed := [];
    var i := 0;
    while i < cut
      invariant 0 <= i <= cut
      invariant removed == sorted[..i]
    {
      removed := removed + [sorted[i]];
      i := i + 1;
    }
    kept := sorted[cut..];
    assert sorted == removed + kept;
    forall r, k | r in removed && k in kept
      ensures r.mtime <= k.mtime
    {
      var a :| 0 <= a < |removed| && removed[a] == r;
      var b :| 0 <= b < |kept| && kept[b] == k;
      assert sorted[a] == r && sorted[cut + b] == k;
    }
  }

  /** What `createBackup` did to the backup directory. */
  datatype BackupOutcome = NoDatabase | CopyFailed | BackedUp(removed: seq<Backup>, kept: seq<Backup>)

  /**
   * `createBackup`: nothing to back up without a database file; a failed
   * copy fails the save; otherwise the copy is made (and is in `listing`)
   * and the oldest backups beyond ten are deleted: no deleted backup is
   * newer than one kept.
   */
  method CreateBackup(databaseExists: bool, copied: bool, listing: seq<Backup>)
    returns (ok: bool, outcome: BackupOutcome)
    ensures !databaseExists ==> ok && outcome == NoDatabase
    ensures databaseExists && !copied ==> !ok && outcome == CopyFailed
    ensures databaseExists && copied ==> ok && outcome.BackedUp?
    ensures outcome.BackedUp? ==> |listing| - |outcome.removed| == if |listing| <= KeptBackups then |listing| else KeptBackups
    ensures outcome.BackedUp? ==> multiset(outcome.removed) + multiset(outcome.kept) == multiset(listing)
    ensures outcome.BackedUp? ==> forall r, k :: r in outcome.removed && k in outcome.kept ==> r.mtime <= k.mtime
  {
    if !databaseExists {
      return true, NoDatabase;
    }
    if !copied {
      return false, CopyFailed;
    }
    var removed, kept := PruneBackups(listing);
    return true, BackedUp(removed, kept);
  }

  // ---------------------------------------------------------------------
  // Requests
  // ---------------------------------------------------------------------

  datatype CategoryInfo = CategoryInfo(key: string, name: string, description: string)

  /** The database a GET answers with when there is no file. */
  datatype DefaultDatabase = DefaultDatabase(
    materials: seq<(Key, Material)>,
    version: string,
    lastUpdated: string,
    categories: seq<CategoryInfo>)

  function EmptyDatabase(now: string): (d: DefaultDatabase)
    ensures d.materials == [] && d.version == "1.0" && d.lastUpdated == now
    ensures |d.categories| == 3
    ensures forall i, j :: 0 <= i < j < |d.categories| ==> d.categories[i].key != d.categories[j].key
  {
    DefaultDatabase([], "1.0", now, [
      CategoryInfo("hardwood", "Hardwood", "Deciduous trees with dense wood"),
      CategoryInfo("softwood", "Softwood", "Coniferous trees with lighter wood"),
      CategoryInfo("sheet_goods", "Sheet Goods", "Manufactured wood products")])
  }

  /** The database file as a GET finds it; `Stored` holds its JSON text, already decoded to something not null. */
  datatype DatabaseFile = Missing | Unreadable | NotJson | Stored(json: string)

  datatype GetResponse = Default(db: DefaultDatabase) | Data(json: string) | GetFailed(message: string)

  /** `handleGetRequest`: the default database without a file; the stored data; or why it could not be read. */
  function HandleGetRequest(file: DatabaseFile, now: string): (r: GetResponse)
    ensures file.Missing? <==> r.Default?
    ensures r.Default? ==> r.db == EmptyDatabase(now)
    ensures file.Stored? <==> r.Data?
    ensures file.Stored? ==> r.json == file.json
    ensures file.Unreadable? <==> r == GetFailed("Failed to read database file")
    ensures file.NotJson? <==> r == GetFailed("Invalid JSON in database file")
  {
    match file
    case Missing => Default(EmptyDatabase(now))
    case Unreadable => GetFailed("Failed to read database file")
    case NotJson => GetFailed("Invalid JSON in database file")
    case Stored(json) => Data(json)
  }

  datatype PostResponse = PostFailed(message: string) | PostSaved(materialCount: nat, lastUpdated: string)

  /** PHP's `empty` on the request body: the empty string and "0". */
  predicate EmptyBody(s: string)
  {
    s == "" || s == "0"
  }

  /**
   * `handlePostRequest`: no body, a body that is not JSON, an invalid
   * submission or a failed backup each fail before anything is written;
   * then the temporary file is written and renamed over the database.
   * `written` is whether the temporary file write succeeded and
   * `renamed` whether the rename did.
   */
  method HandlePostRequest(input: string, decoded: Option<Submission>, jsonError: string,
                           databaseExists: bool, copied: bool, listing: seq<Backup>,
                           written: bool, renamed: bool, now: string)
    returns (response: PostResponse, saved: bool)
    requires decoded.Some? && decoded.value.materials.Some? ==> DistinctKeys(decoded.value.materials.value)
    ensures EmptyBody(input) ==> response == PostFailed("No data received") && !saved
    ensures !EmptyBody(input) && decoded.None? ==> response == PostFailed("Invalid JSON data: " + jsonError) && !saved
    ensures !EmptyBody(input) && decoded.Some? && !Valid(decoded.value) ==>
              response == PostFailed("Data validation failed: " + ValidationError(decoded.value).value) && !saved
    ensures saved <==> !EmptyBody(input) && decoded.Some? && Valid(decoded.value)
                       && (!databaseExists || copied) && written && renamed
    ensures saved ==> response == PostSaved(|decoded.value.materials.value|, now)
    ensures !EmptyBody(input) && decoded.Some? && Valid(decoded.value) ==>
              (databaseExists && !copied ==> response == PostFailed("Failed to create backup before saving"))
              && ((!databaseExists || copied) && !written ==> response == PostFailed("Failed to write temporary file"))
              && ((!databaseExists || copied) && written && !renamed ==> response == PostFailed("Failed to finalize save operation"))
  {
    if EmptyBody(input) {
      return PostFailed("No data received"), false;
    }
    if decoded.None? {
      return PostFailed("Invalid JSON data: " + jsonError), false;
    }
    var data := decoded.value;
    var validationError := ValidateMaterialsData(data);
    if validationError.Some? {
      return PostFailed("Data validation failed: " + validationError.value), false;
    }
    var backedUp, _ := CreateBackup(databaseExists, copied, listing);
    if !backedUp {
      return PostFailed("Failed to create backup before saving"), false;
    }
    if !written {
      return PostFailed("Failed to write temporary file"), false;
    }
    if !renamed {
      return PostFailed("Failed to finalize save operation"), false;
    }
    return PostSaved(|data.materials.value|, now), true;
  }
}
