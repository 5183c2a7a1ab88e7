/** `POST /api/upload`: a signed-in user uploads one employee file into the
    "201-files" bucket under a key built from the employee, the file type, the
    time and the file name. */
module UploadRoute {
  import opened Wrappers
  import opened Http
  import opened Strings
  import opened ObjectStorage

  /** `auth.getUser()`: an error, no user, or the signed-in user. */
  datatype Session = AuthError | NoUser | SignedIn(userId: string)

  /** The form's `file`, `employeeId` and `fileType` entries (none when absent). */
  datatype UploadForm = UploadForm(file: Option<FileBlob>, employeeId: Option<string>, fileType: Option<string>)

  /** The success body `{ url, path }`. */
  datatype Saved = Saved(url: string, path: string)

  const BucketName: string := "201-files"

  /** A form entry that is present and not the empty string. */
  predicate Given(v: Option<string>)
  {
    v.Some? && v.value != ""
  }

  /** `!file || !employeeId || !fileType`. */
  predicate Missing(f: UploadForm)
  {
    f.file.None? || !Given(f.employeeId) || !Given(f.fileType)
  }

  /** Line 22: `${employeeId}/${fileType}/${Date.now()}-${file.name}`. */
  function StorageKey(employeeId: string, fileType: string, now: nat, fileName: string): (r: string)
    ensures StartsWith(r, employeeId + "/" + fileType + "/")
  {
    employeeId + "/" + fileType + "/" + Decimal(now) + "-" + fileName
  }

  /** The key can be read back: when the employee id and file type hold no
      `/`, equal keys mean the same employee, type, time and file name; so two
      uploads at different milliseconds or of differently named files never
      collide. */
  lemma StorageKeyDecodes(e1: string, f1: string, n1: nat, m1: string, e2: string, f2: string, n2: nat, m2: string)
    requires '/' !in e1 && '/' !in e2 && '/' !in f1 && '/' !in f2
    requires StorageKey(e1, f1, n1, m1) == StorageKey(e2, f2, n2, m2)
    ensures e1 == e2 && f1 == f2 && n1 == n2 && m1 == m2
  {
    var rest1, rest2 := Decimal(n1) + "-" + m1, Decimal(n2) + "-" + m2;
    assert StorageKey(e1, f1, n1, m1) == e1 + ['/'] + (f1 + ['/'] + rest1);
    assert StorageKey(e2, f2, n2, m2) == e2 + ['/'] + (f2 + ['/'] + rest2);
    SeparatorSplitsUniquely(e1, f1 + ['/'] + rest1, e2, f2 + ['/'] + rest2, '/');
    SeparatorSplitsUniquely(f1, rest1, f2, rest2, '/');
    assert '-' !in Decimal(n1) by {
      forall k | 0 <= k < |Decimal(n1)| ensures Decimal(n1)[k] != '-' { assert IsDigit(Decimal(n1)[k]); }
    }
    assert '-' !in Decimal(n2) by {
      forall k | 0 <= k < |Decimal(n2)| ensures Decimal(n2)[k] != '-' { assert IsDigit(Decimal(n2)[k]); }
    }
    assert rest1 == Decimal(n1) + ['-'] + m1 && rest2 == Decimal(n2) + ['-'] + m2;
    SeparatorSplitsUniquely(Decimal(n1), m1, Decimal(n2), m2, '-');
    DecimalInjective(n1, n2);
  }

  /** The request as a step on the bucket's objects. `form` is none when the
      body cannot be read as form data; `base` is the project URL. */
  function Upload(objects: map<string, FileBlob>, session: Session, form: Option<UploadForm>, now: nat, base: string, fault: Outcome)
    : (r: (map<string, FileBlob>, Response<Saved>))
    ensures r.1.status in {200, 400, 401, 500}
    ensures r.1.status != 200 ==> r.0 == objects
  {
    if !session.SignedIn? then (objects, Fail(401, "Unauthorized"))
    else if form.None? then (objects, Fail(500, "Upload failed"))
    else if Missing(form.value) then
      (objects, Fail(400, "Missing required fields"))
    else
      var f := form.value;
      var key := StorageKey(f.employeeId.value, f.fileType.value, now, f.file.value.name);
      var (objects', result) := Stored(objects, key, f.file.value, false, fault);
      if result.Failure? then (objects', Fail(400, result.message))
      else (objects', Ok(200, Saved(PublicUrl(base, BucketName, key), key)))
  }

  /** Only a signed-in caller with all three fields gets past the checks; the
      session is checked before the form is read, and a rejected request
      stores nothing. */
  lemma ChecksStoreNothing(objects: map<string, FileBlob>, session: Session, form: Option<UploadForm>, now: nat, base: string, fault: Outcome)
    ensures var (objects', r) := Upload(objects, session, form, now, base, fault);
      && (!session.SignedIn? ==> r == Fail(401, "Unauthorized"))
      && (session.SignedIn? && form.Some? && Missing(form.value) ==> r == Fail(400, "Missing required fields"))
      && (r.status != 200 ==> objects' == objects)
  {
  }

  /** An upload succeeds exactly when the call succeeds and the key is free;
      then the file is stored under the key, nothing else changes, and the
      body carries the key and its public URL. A taken key is refused with
      400 and the object there is kept. */
  lemma SuccessStoresUnderKey(objects: map<string, FileBlob>, uid: string, f: UploadForm, now: nat, base: string, fault: Outcome)
    requires f.file.Some? && Given(f.employeeId) && Given(f.fileType)
    ensures var key := StorageKey(f.employeeId.value, f.fileType.value, now, f.file.value.name);
      var (objects', r) := Upload(objects, SignedIn(uid), Some(f), now, base, fault);
      && (r.status == 200 <==> fault.Success? && key !in objects)
      && (r.status == 200 ==> objects' == objects[key := f.file.value] && r.body == Data(Saved(PublicUrl(base, BucketName, key), key)))
      && (r.status != 200 ==> r.status == 400 && objects' == objects)
      && (key in objects ==> objects'[key] == objects[key])
  {
  }

  /** The handler, writing to the bucket in place. */
  method Post(bucket: Bucket, session: Session, form: Option<UploadForm>, now: nat, base: string, fault: Outcome)
    returns (resp: Response<Saved>)
    modifies bucket
    ensures (bucket.objects, resp) == Upload(old(bucket.objects), session, form, now, base, fault)
  {
    if !session.SignedIn? {
      return Fail(401, "Unauthorized");
    }
    if form.None? {
      return Fail(500, "Upload failed");
    }
    var file, employeeId, fileType := form.value.file, form.value.employeeId, form.value.fileType;
    if file.None? || !Given(employeeId) || !Given(fileType) {
      return Fail(400, "Missing required fields");
    }
    var fileName := StorageKey(employeeId.value, fileType.value, now, file.value.name);
    var uploadError := bucket.Upload(fileName, file.value, false, fault);
    if uploadError.Failure? {
      return Fail(400, uploadError.message);
    }
    resp := Ok(200, Saved(PublicUrl(base, BucketName, fileName), fileName));
  }
}
