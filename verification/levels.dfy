/** The level resource route: create a level under exactly the name given,
    unless a level with that exact name exists. */
module LevelResource {
  import opened Common
  import opened Db

  const NameMin: nat := 1
  const NameMax: nat := 10

  datatype Response =
    | Idle                       // the form was not submitted
    | Error(issues: seq<Issue>)  // status 400 with the submission's issues
    | Success                    // the level was created

  datatype Outcome = Outcome(response: Response, levels: map<string, string>)

  /** Some level is stored under exactly this name. */
  predicate HasName(levels: map<string, string>, name: string) {
    exists id :: id in levels && levels[id] == name
  }

  /** The refinement's message, spelled as the route spells it. */
  function DuplicateMessage(name: string): (r: string)
    ensures |r| == |name| + 25
    ensures r[10..10 + |name|] == name
  {
    "he level: " + name + " already exists"
  }

  /** `AddLevelFormSchema` and its refinement: the length issues and, once a
      name is present, the duplicate issue when that exact name is stored. */
  function Issues(levels: map<string, string>, form: FormData): (r: seq<Issue>)
    ensures r == [] <==> "name" in form && NameMin <= Utf16Length(form["name"]) <= NameMax && !HasName(levels, form["name"])
    ensures "name" in form && form["name"] != "" && HasName(levels, form["name"])
            ==> Custom("name", DuplicateMessage(form["name"])) in r
  {
    match ConformField(form, "name")
    case None => [Required("name")]
    case Some(name) =>
      LengthIssues("name", name, NameMin, NameMax)
      + (if HasName(levels, name) then [Custom("name", DuplicateMessage(name))] else [])
  }

  /** The action on a levels table; `newId` is the id the database gives a
      created row. */
  function Step(levels: map<string, string>, form: FormData, submitted: bool, newId: string): (r: Outcome)
    requires newId !in levels
    ensures !r.response.Success? ==> r.levels == levels
    ensures r.response.Success? ==> |r.levels| == |levels| + 1 && r.levels.Keys == levels.Keys + {newId}
  {
    if !submitted then Outcome(Idle, levels)
    else if Issues(levels, form) != [] then Outcome(Error(Issues(levels, form)), levels)
    else Outcome(Success, levels[newId := form["name"]])
  }

  /** The route action on the database. */
  method Action(db: Database, form: FormData, submitted: bool, newId: string) returns (r: Response)
    requires newId !in db.levels
    modifies db`levels
    ensures Outcome(r, db.levels) == Step(old(db.levels), form, submitted, newId)
    ensures NamesDistinct(old(db.levels)) ==> NamesDistinct(db.levels)
    ensures old(db.Valid()) ==> db.Valid()
  {
    var issues := Issues(db.levels, form);
    if !submitted {
      return Idle;
    }
    if issues != [] {
      return Error(issues);
    }
    var name := form["name"];
    CreateKeepsNamesDistinct(db.levels, name, newId);
    db.levels := db.levels[newId := name];
    return Success;
  }

  /** A create succeeds exactly when the form is submitted, the name has 1 to
      10 code units and no level has that exact name; the name is stored
      unchanged. */
  lemma CreateSucceedsIff(levels: map<string, string>, form: FormData, submitted: bool, newId: string)
    requires newId !in levels
    ensures Step(levels, form, submitted, newId).response.Success? <==>
      submitted && "name" in form && NameMin <= Utf16Length(form["name"]) <= NameMax && !HasName(levels, form["name"])
    ensures Step(levels, form, submitted, newId).response.Success? ==>
      Step(levels, form, submitted, newId).levels == levels[newId := form["name"]]
  {
  }

  /** A level whose exact name is stored is refused with the duplicate issue. */
  lemma DuplicateRejected(levels: map<string, string>, form: FormData, newId: string)
    requires newId !in levels
    requires "name" in form && form["name"] != "" && HasName(levels, form["name"])
    ensures Step(levels, form, true, newId).response.Error?
    ensures Custom("name", DuplicateMessage(form["name"])) in Step(levels, form, true, newId).response.issues
  {
  }

  /** Unlike calibers, names that differ only in letter case are different
      levels: after "a" is created, "A" is still accepted. */
  lemma {:induction false} CaseVariantAccepted(levels: map<string, string>, newId: string, otherId: string)
    requires newId !in levels && otherId != newId && otherId !in levels
    requires !HasName(levels, "a") && !HasName(levels, "A")
    ensures Step(levels, map["name" := "a"], true, newId).response.Success?
    ensures Step(Step(levels, map["name" := "a"], true, newId).levels, map["name" := "A"], true, otherId).response.Success?
  {
    CodeUnitsOfBmp("a");
    CodeUnitsOfBmp("A");
    var after := levels[newId := "a"];
    assert Step(levels, map["name" := "a"], true, newId).levels == after;
    forall id | id in after
      ensures after[id] != "A"
    {
      if id == newId {
        assert after[id] == "a";
      }
    }
  }

  /** Adding a name no level has keeps names distinct. */
  lemma {:induction false} CreateKeepsNamesDistinct(levels: map<string, string>, name: string, newId: string)
    requires newId !in levels && !HasName(levels, name)
    ensures NamesDistinct(levels) ==> NamesDistinct(levels[newId := name])
  {
    var after := levels[newId := name];
    if NamesDistinct(levels) {
      forall a, b | a in after && b in after && a != b
        ensures after[a] != after[b]
      {
        if a == newId {
          assert !(b in levels && levels[b] == name);
        } else if b == newId {
          assert !(a in levels && levels[a] == name);
        }
      }
    }
  }

  /** A successful create cannot be repeated: the same name is then refused. */
  lemma {:induction false} ResubmitRejected(levels: map<string, string>, form: FormData, newId: string, otherId: string)
    requires newId !in levels
    requires Step(levels, form, true, newId).response.Success?
    requires otherId !in Step(levels, form, true, newId).levels
    ensures Step(Step(levels, form, true, newId).levels, form, true, otherId).response.Error?
  {
    var after := Step(levels, form, true, newId).levels;
    assert after[newId] == form["name"];
    assert HasName(after, form["name"]);
  }
}
