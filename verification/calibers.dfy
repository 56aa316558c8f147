/** The caliber resource route: create a caliber under its upper-cased name
    unless one with that name exists, or delete a caliber by id. */
module CaliberResource {
  import opened Common
  import opened Db

  const NameMin: nat := 1
  const NameMax: nat := 10
  const CaliberIdMin: nat := 25
  const CaliberIdMax: nat := 35
  const DuplicateMessage := "This caliber already exists"

  datatype Response =
    | Idle                          // the form was not submitted
    | Error(issues: seq<Issue>)     // status 400 with the submission's issues
    | Successful                    // status 200 after a create
    | RedirectWithToast(to: string) // after a delete
    | InvalidAction                 // the thrown 400 for an unknown intent
    | RecordNotFound                // the database refuses to delete a missing row

  /** The action's effect: what it answers and the calibers table afterwards. */
  datatype Outcome = Outcome(response: Response, calibers: map<string, string>)

  /** Some caliber is stored under exactly this name. */
  predicate HasName(calibers: map<string, string>, name: string) {
    exists id :: id in calibers && calibers[id] == name
  }

  /** `AddCaliberFormSchema` and its refinement: the name's length issues and,
      once a name is present, the duplicate issue when its upper-cased form is
      already stored. */
  function CreateIssues(calibers: map<string, string>, form: FormData): (r: seq<Issue>)
    ensures r == [] <==>
      "name" in form && NameMin <= Utf16Length(form["name"]) <= NameMax && !HasName(calibers, ToUpper(form["name"]))
    ensures "name" in form && form["name"] != "" && HasName(calibers, ToUpper(form["name"]))
            ==> Custom("name", DuplicateMessage) in r
  {
    match ConformField(form, "name")
    case None => [Required("name")]
    case Some(name) =>
      LengthIssues("name", name, NameMin, NameMax)
      + (if HasName(calibers, ToUpper(name)) then [Custom("name", DuplicateMessage)] else [])
  }

  /** `DeleteCaliberFormSchema`: a caliber id of length 25 to 35. */
  function DeleteIssues(form: FormData): (r: seq<Issue>)
    ensures r == [] <==> "caliberId" in form && CaliberIdMin <= Utf16Length(form["caliberId"]) <= CaliberIdMax
  {
    StringFieldIssues(form, "caliberId", CaliberIdMin, CaliberIdMax)
  }

  /** The `delete-caliber` case. */
  function Delete(calibers: map<string, string>, form: FormData, submitted: bool): (r: Outcome)
    ensures !r.response.RedirectWithToast? ==> r.calibers == calibers
    ensures r.response.RedirectWithToast? <==>
      submitted && DeleteIssues(form) == [] && form["caliberId"] in calibers
    ensures r.response.RedirectWithToast? ==>
      && r.calibers == calibers - {form["caliberId"]}
      && r.response.to == SafeRedirect(RawField(form, "redirectTo"))
  {
    if !submitted then Outcome(Idle, calibers)
    else if DeleteIssues(form) != [] then Outcome(Error(DeleteIssues(form)), calibers)
    else if form["caliberId"] !in calibers then Outcome(RecordNotFound, calibers)
    else Outcome(RedirectWithToast(SafeRedirect(RawField(form, "redirectTo"))), calibers - {form["caliberId"]})
  }

  /** The `create-caliber` case; `newId` is the id the database gives the
      created row. */
  function Create(calibers: map<string, string>, form: FormData, submitted: bool, newId: string): (r: Outcome)
    ensures !r.response.Successful? ==> r.calibers == calibers
    ensures r.response.Successful? <==> submitted && CreateIssues(calibers, form) == []
    ensures r.response.Successful? ==> r.calibers == calibers[newId := ToUpper(form["name"])]
    ensures !r.response.RedirectWithToast?
  {
    if !submitted then Outcome(Idle, calibers)
    else if CreateIssues(calibers, form) != [] then Outcome(Error(CreateIssues(calibers, form)), calibers)
    else Outcome(Successful, calibers[newId := ToUpper(form["name"])])
  }

  /** The action on a calibers table, dispatched on the `intent` field.
      `submitted` says whether the form was submitted (rather than validated
      on the fly). */
  function Step(calibers: map<string, string>, form: FormData, submitted: bool, newId: string): (r: Outcome)
    requires newId !in calibers
    ensures !r.response.Successful? && !r.response.RedirectWithToast? ==> r.calibers == calibers
    ensures r.response.Successful? ==> |r.calibers| == |calibers| + 1 && r.calibers.Keys == calibers.Keys + {newId}
    ensures r.response.RedirectWithToast? ==>
      "caliberId" in form && form["caliberId"] in calibers
      && r.calibers.Keys == calibers.Keys - {form["caliberId"]} && |r.calibers| == |calibers| - 1
  {
    match RawField(form, "intent")
    case Some("delete-caliber") => Delete(calibers, form, submitted)
    case Some("create-caliber") => Create(calibers, form, submitted, newId)
    case _ => Outcome(InvalidAction, calibers)
  }

  /** The route action on the database: dispatch on the intent, validate, and
      insert or delete one caliber. */
  method Action(db: Database, form: FormData, submitted: bool, newId: string) returns (r: Response)
    requires newId !in db.calibers
    modifies db`calibers
    ensures Outcome(r, db.calibers) == Step(old(db.calibers), form, submitted, newId)
    ensures NamesDistinct(old(db.calibers)) ==> NamesDistinct(db.calibers)
    ensures old(db.Valid()) ==> db.Valid()
  {
    var intent := RawField(form, "intent");
    var safeRedirectTo := SafeRedirect(RawField(form, "redirectTo"));
    if intent == Some("delete-caliber") {
      var issues := DeleteIssues(form);
      if !submitted {
        return Idle;
      }
      if issues != [] {
        return Error(issues);
      }
      var caliberId := form["caliberId"];
      if caliberId !in db.calibers {
        return RecordNotFound;
      }
      DeleteKeepsNamesDistinct(db.calibers, caliberId);
      db.calibers := db.calibers - {caliberId};
      return RedirectWithToast(safeRedirectTo);
    } else if intent == Some("create-caliber") {
      var issues := CreateIssues(db.calibers, form);
      if !submitted {
        return Idle;
      }
      if issues != [] {
        return Error(issues);
      }
      var upperCaseName := ToUpper(form["name"]);
      CreateKeepsNamesDistinct(db.calibers, form, newId);
      db.calibers := db.calibers[newId := upperCaseName];
      return Successful;
    } else {
      return InvalidAction;
    }
  }

  /** A create succeeds exactly when the intent is create, the form is
      submitted, the name has 1 to 10 UTF-16 code units and its upper-cased form is
      not yet stored; the row stored carries the upper-cased name. */
  lemma CreateSucceedsIff(calibers: map<string, string>, form: FormData, submitted: bool, newId: string)
    requires newId !in calibers
    ensures Step(calibers, form, submitted, newId).response.Successful? <==>
      && RawField(form, "intent") == Some("create-caliber") && submitted
      && "name" in form && NameMin <= Utf16Length(form["name"]) <= NameMax && !HasName(calibers, ToUpper(form["name"]))
    ensures Step(calibers, form, submitted, newId).response.Successful? ==>
      Step(calibers, form, submitted, newId).calibers == calibers[newId := ToUpper(form["name"])]
  {
  }

  /** Six characters above U+FFFF are twelve code units: the name is too
      long, though it has only six characters. */
  lemma {:induction false} AstralNameTooLong(calibers: map<string, string>, name: string, newId: string)
    requires newId !in calibers
    requires |name| == 6 && forall i :: 0 <= i < |name| ==> name[i] as int >= 0x1_0000
    ensures Step(calibers, map["intent" := "create-caliber", "name" := name], true, newId).response.Error?
    ensures TooBig("name", NameMax) in Step(calibers, map["intent" := "create-caliber", "name" := name], true, newId).response.issues
    ensures Step(calibers, map["intent" := "create-caliber", "name" := name], true, newId).calibers == calibers
  {
    AstralCountsTwice(name);
  }

  /** A create whose upper-cased name is already stored answers 400 with the
      duplicate issue on `name`. */
  lemma DuplicateCreateRejected(calibers: map<string, string>, form: FormData, newId: string)
    requires newId !in calibers
    requires RawField(form, "intent") == Some("create-caliber")
    requires "name" in form && form["name"] != "" && HasName(calibers, ToUpper(form["name"]))
    ensures Step(calibers, form, true, newId).response.Error?
    ensures Custom("name", DuplicateMessage) in Step(calibers, form, true, newId).response.issues
    ensures Step(calibers, form, true, newId).calibers == calibers
  {
  }

  /** After a create succeeds, a create whose name differs only in letter case
      fails: the two upper-case to the same stored name. */
  lemma {:induction false} CaseVariantRejected(calibers: map<string, string>, form: FormData, newId: string,
                                               other: FormData, otherId: string)
    requires newId !in calibers
    requires Step(calibers, form, true, newId).response.Successful?
    requires "name" in other && ToUpper(other["name"]) == ToUpper(form["name"])
    requires otherId !in Step(calibers, form, true, newId).calibers
    ensures !Step(Step(calibers, form, true, newId).calibers, other, true, otherId).response.Successful?
  {
    var after := calibers[newId := ToUpper(form["name"])];
    assert Step(calibers, form, true, newId).calibers == after;
    assert after[newId] == ToUpper(other["name"]);
    assert HasName(after, ToUpper(other["name"]));
    assert !Create(after, other, true, otherId).response.Successful?;
  }

  /** A successful create keeps stored names distinct. */
  lemma {:induction false} CreateKeepsNamesDistinct(calibers: map<string, string>, form: FormData, newId: string)
    requires newId !in calibers
    requires "name" in form && !HasName(calibers, ToUpper(form["name"]))
    ensures NamesDistinct(calibers) ==> NamesDistinct(calibers[newId := ToUpper(form["name"])])
  {
    var after := calibers[newId := ToUpper(form["name"])];
    if NamesDistinct(calibers) {
      forall a, b | a in after && b in after && a != b
        ensures after[a] != after[b]
      {
        if a == newId {
          assert !(b in calibers && calibers[b] == ToUpper(form["name"]));
        } else if b == newId {
          assert !(a in calibers && calibers[a] == ToUpper(form["name"]));
        }
      }
    }
  }

  /** Deleting a row keeps stored names distinct. */
  lemma DeleteKeepsNamesDistinct(calibers: map<string, string>, caliberId: string)
    ensures NamesDistinct(calibers) ==> NamesDistinct(calibers - {caliberId})
  {
  }

  /** Every name the action stores has no lower-case ASCII letter. */
  ghost predicate NamesUpperCase(calibers: map<string, string>) {
    forall id :: id in calibers ==> ToUpper(calibers[id]) == calibers[id]
  }

  lemma InsertKeepsNamesUpperCase(calibers: map<string, string>, id: string, name: string)
    requires NamesUpperCase(calibers) && ToUpper(name) == name
    ensures NamesUpperCase(calibers[id := name])
  {
  }

  lemma RemoveKeepsNamesUpperCase(calibers: map<string, string>, id: string)
    requires NamesUpperCase(calibers)
    ensures NamesUpperCase(calibers - {id})
  {
  }

  /** The action keeps every stored name upper-cased. */
  lemma {:induction false} StepKeepsNamesUpperCase(calibers: map<string, string>, form: FormData, submitted: bool, newId: string)
    requires newId !in calibers
    requires NamesUpperCase(calibers)
    ensures NamesUpperCase(Step(calibers, form, submitted, newId).calibers)
  {
    var r := Step(calibers, form, submitted, newId);
    if r.response.Successful? {
      CreateSucceedsIff(calibers, form, submitted, newId);
      ToUpperIdempotent(form["name"]);
      InsertKeepsNamesUpperCase(calibers, newId, ToUpper(form["name"]));
    } else if r.response.RedirectWithToast? {
      DeleteSucceedsIff(calibers, form, submitted, newId);
      RemoveKeepsNamesUpperCase(calibers, form["caliberId"]);
    }
  }

  /** A delete succeeds exactly when the intent is delete, the form is
      submitted and the id has 25 to 35 code units and names a stored caliber;
      it removes that caliber only and redirects to a local path. */
  lemma DeleteSucceedsIff(calibers: map<string, string>, form: FormData, submitted: bool, newId: string)
    requires newId !in calibers
    ensures Step(calibers, form, submitted, newId).response.RedirectWithToast? <==>
      && RawField(form, "intent") == Some("delete-caliber") && submitted
      && "caliberId" in form && CaliberIdMin <= Utf16Length(form["caliberId"]) <= CaliberIdMax
      && form["caliberId"] in calibers
    ensures Step(calibers, form, submitted, newId).response.RedirectWithToast? ==>
      && Step(calibers, form, submitted, newId).calibers == calibers - {form["caliberId"]}
      && StartsWith(Step(calibers, form, submitted, newId).response.to, "/")
      && !StartsWith(Step(calibers, form, submitted, newId).response.to, "//")
  {
  }

  /** A well-formed delete of an id no caliber has is refused by the database. */
  lemma DeleteMissingNotFound(calibers: map<string, string>, form: FormData, newId: string)
    requires newId !in calibers
    requires RawField(form, "intent") == Some("delete-caliber")
    requires DeleteIssues(form) == [] && form["caliberId"] !in calibers
    ensures Step(calibers, form, true, newId) == Outcome(RecordNotFound, calibers)
  {
  }

  /** An unsubmitted form is answered `idle`, whatever it holds. */
  lemma UnsubmittedIsIdle(calibers: map<string, string>, form: FormData, newId: string)
    requires newId !in calibers
    requires RawField(form, "intent") in {Some("delete-caliber"), Some("create-caliber")}
    ensures Step(calibers, form, false, newId) == Outcome(Idle, calibers)
  {
  }

  /** Any other intent, or none, is the thrown 400. */
  lemma OtherIntentInvalid(calibers: map<string, string>, form: FormData, submitted: bool, newId: string)
    requires newId !in calibers
    requires RawField(form, "intent") !in {Some("delete-caliber"), Some("create-caliber")}
    ensures Step(calibers, form, submitted, newId) == Outcome(InvalidAction, calibers)
  {
  }
}
