/** The create-category use case. It builds a Category from the input, which
    validates it; it appends the category to the repository; and it returns
    the category's fields as an Output record. A Category is an Entity whose
    fields are name, description, is_active and created_at; the module that
    declares it (category/domain/entities.py) is not part of this model, so
    its validation rules are the ones its tests assert. */
module UseCases {
  import opened Errors
  import opened Values
  import opened ValueObjects
  import opened Validators
  import opened Entities
  import opened Repositories

  // ------------------------------------------------------------- Category

  /** The fields of a Category, in declaration order. */
  function CategoryProps(name: Value, description: Value, isActive: Value, createdAt: Value): (p: Props)
    ensures WellFormed(p)
  {
    var p := [("name", name), ("description", description), ("is_active", isActive), ("created_at", createdAt)];
    assert Names(p) == {"name", "description", "is_active", "created_at"} by {
      assert p[0].0 == "name" && p[1].0 == "description" && p[2].0 == "is_active" && p[3].0 == "created_at";
    }
    p
  }

  /** Each field of a Category reads back as the value it was built with. */
  lemma {:induction false} CategoryPropsDict(name: Value, description: Value, isActive: Value, createdAt: Value)
    ensures PropsDict(CategoryProps(name, description, isActive, createdAt)) ==
              map["name" := name, "description" := description, "is_active" := isActive, "created_at" := createdAt]
  {
    var p := CategoryProps(name, description, isActive, createdAt);
    assert p[..3] == [("name", name), ("description", description), ("is_active", isActive)];
    assert p[..3][..2] == [("name", name), ("description", description)];
    assert p[..3][..2][..1] == [("name", name)];
    assert p[..3][..2][..1][..0] == [];
    var p3, p2, p1 := p[..3], p[..3][..2], p[..3][..2][..1];
    assert PropsDict(p1) == map["name" := name];
    assert PropsDict(p2) == PropsDict(p1)["description" := description];
    assert PropsDict(p3) == PropsDict(p2)["is_active" := isActive];
    assert PropsDict(p) == PropsDict(p3)["created_at" := createdAt];
  }

  /** The validation a Category runs when it is built: name is required, a
      string and at most 255 characters long; description is a string;
      is_active is a boolean. The first rule that fails raises. */
  function ValidateCategory(name: Value, description: Value, isActive: Value): Outcome
  {
    var nameRules := NameChain(name);
    var descriptionRules := Chain(MakeRules(description, "description"), [IsString]);
    var isActiveRules := Chain(MakeRules(isActive, "is_active"), [IsBoolean]);
    if nameRules.Err? then Fail(nameRules.error)
    else if descriptionRules.Err? then Fail(descriptionRules.error)
    else if isActiveRules.Err? then Fail(isActiveRules.error)
    else Pass
  }

  /** The message of `max_length(255)` for the name field. */
  lemma NameLengthMessage()
    ensures MaxLengthMessage("name", 255) == "name must be at most 255 characters long"
  {
    MaxNameLengthString();
    NameLengthPrefix();
    assert "name must be at most " + "255" == "name must be at most 255";
  }

  lemma NameLengthPrefix()
    ensures "name" + " must be at most " == "name must be at most "
  {
  }

  lemma MaxNameLengthString()
    ensures IntToString(255) == "255"
  {
    assert NatToString(2) == "2";
    assert NatToString(25) == NatToString(2) + [DigitChar(5)];
    assert NatToString(25) == "25";
    assert NatToString(255) == NatToString(25) + [DigitChar(5)];
  }

  /** The other messages of the Category rules, written out. */
  lemma NameRequiredMessage()
    ensures RequiredMessage("name") == "name is required"
  {
  }

  lemma NameStringMessage()
    ensures StringMessage("name") == "name must be a string"
  {
  }

  lemma DescriptionStringMessage()
    ensures StringMessage("description") == "description must be a string"
  {
  }

  lemma IsActiveBooleanMessage()
    ensures BooleanMessage("is_active") == "is_active must be a boolean"
  {
  }

  /** A name that passes all its rules: a non-empty string of at most 255
      characters. */
  predicate NameIsValid(name: Value)
  {
    name.Str? && 0 < |name.s| <= 255
  }

  /** The rules a Category applies to its name, in order. */
  function NameChain(name: Value): Result<ValidatorRules>
  {
    Chain(MakeRules(name, "name"), [Required, IsString, MaxLength(255)])
  }

  lemma {:induction false} NameMissing(name: Value)
    requires name == Null || name == Str("")
    ensures NameChain(name) == Err(Validation(RequiredMessage("name")))
  {
    ChainFirstFailure(MakeRules(name, "name"), [Required, IsString, MaxLength(255)], 0);
  }

  lemma {:induction false} NameNotString(name: Value)
    requires name != Null && !name.Str?
    ensures NameChain(name) == Err(Validation(StringMessage("name")))
  {
    ChainFirstFailure(MakeRules(name, "name"), [Required, IsString, MaxLength(255)], 1);
  }

  lemma {:induction false} NameTooLong(name: Value)
    requires name.Str? && |name.s| > 255
    ensures NameChain(name) == Err(Validation(MaxLengthMessage("name", 255)))
  {
    ChainFirstFailure(MakeRules(name, "name"), [Required, IsString, MaxLength(255)], 2);
  }

  lemma {:induction false} NameAccepted(name: Value)
    requires NameIsValid(name)
    ensures NameChain(name) == Ok(MakeRules(name, "name"))
  {
    ChainPasses(MakeRules(name, "name"), [Required, IsString, MaxLength(255)]);
  }

  /** The name chain `required().string().max_length(255)` case by case. */
  lemma {:induction false} NameRulesCases(name: Value)
    ensures NameChain(name) ==
              if name == Null || name == Str("") then Err(Validation(RequiredMessage("name")))
              else if !name.Str? then Err(Validation(StringMessage("name")))
              else if |name.s| > 255 then Err(Validation(MaxLengthMessage("name", 255)))
              else Ok(MakeRules(name, "name"))
  {
    if name == Null || name == Str("") {
      NameMissing(name);
    } else if !name.Str? {
      NameNotString(name);
    } else if |name.s| > 255 {
      NameTooLong(name);
    } else {
      NameAccepted(name);
    }
  }

  /** Category validation reports a bad name first, with the message of the
      first name rule that fails: a missing name, a name that is not a
      string, or a name over 255 characters. The length rule never meets a
      value without a length. */
  lemma {:induction false} CategoryNameErrors(name: Value, description: Value, isActive: Value)
    ensures name == Null || name == Str("") ==>
              ValidateCategory(name, description, isActive) == Fail(Validation(RequiredMessage("name")))
    ensures name != Null && !name.Str? ==>
              ValidateCategory(name, description, isActive) == Fail(Validation(StringMessage("name")))
    ensures name.Str? && |name.s| > 255 ==>
              ValidateCategory(name, description, isActive)
              == Fail(Validation(MaxLengthMessage("name", 255)))
  {
    NameRulesCases(name);
  }

  /** With a valid name, a description that is not a string is reported,
      and after it an is_active that is not a boolean. */
  lemma {:induction false} CategoryFieldErrors(name: Value, description: Value, isActive: Value)
    requires NameIsValid(name)
    ensures description != Null && !description.Str? ==>
              ValidateCategory(name, description, isActive) == Fail(Validation(StringMessage("description")))
    ensures (description == Null || description.Str?) && isActive != Null && !isActive.Bool? ==>
              ValidateCategory(name, description, isActive) == Fail(Validation(BooleanMessage("is_active")))
  {
    NameRulesCases(name);
    ChainOfOne(MakeRules(description, "description"), IsString);
    if description == Null || description.Str? {
      ChainOfOne(MakeRules(isActive, "is_active"), IsBoolean);
    }
  }

  /** A Category is valid exactly when its name is a non-empty string of at
      most 255 characters, its description None or a string, and its
      is_active None or a boolean. */
  lemma {:induction false} CategoryValidIff(name: Value, description: Value, isActive: Value)
    ensures ValidateCategory(name, description, isActive) == Pass <==>
              NameIsValid(name) && (description == Null || description.Str?) &&
              (isActive == Null || isActive.Bool?)
  {
    NameRulesCases(name);
    ChainOfOne(MakeRules(description, "description"), IsString);
    ChainOfOne(MakeRules(isActive, "is_active"), IsBoolean);
  }

  /** The Category cases of the integration tests. An argument left out
      takes the record's default: description None, is_active True. */
  lemma {:induction false} CategoryExamples()
    ensures ValidateCategory(Null, Null, Bool(true)) == Fail(Validation(RequiredMessage("name")))
    ensures ValidateCategory(Str(""), Null, Bool(true)) == Fail(Validation(RequiredMessage("name")))
    ensures ValidateCategory(Int(5), Null, Bool(true)) == Fail(Validation(StringMessage("name")))
    ensures ValidateCategory(Str("Movie"), Int(5), Bool(true)) == Fail(Validation(StringMessage("description")))
    ensures ValidateCategory(Str("Movie"), Null, Str("True")) == Fail(Validation(BooleanMessage("is_active")))
    ensures ValidateCategory(Str(seq(256, i => 'a')), Null, Bool(true))
            == Fail(Validation(MaxLengthMessage("name", 255)))
    ensures ValidateCategory(Str("Movie"), Null, Bool(true)) == Pass
    ensures ValidateCategory(Str("Movie"), Str("A description"), Bool(true)) == Pass
  {
    CategoryNameErrors(Null, Null, Bool(true));
    CategoryNameErrors(Str(""), Null, Bool(true));
    CategoryValidIff(Str("Movie"), Null, Bool(true));
    CategoryNameErrors(Int(5), Null, Bool(true));
    CategoryFieldErrors(Str("Movie"), Int(5), Bool(true));
    CategoryFieldErrors(Str("Movie"), Null, Str("True"));
    CategoryNameErrors(Str(seq(256, i => 'a')), Null, Bool(true));
    CategoryValidIff(Str("Movie"), Str("A description"), Bool(true));
  }

  // --------------------------------------------------- Input and Output

  /** `CreateCategoryUseCase.Input`. */
  datatype Input = Input(name: Value, description: Value, isActive: Value)

  /** `Input(name)`: description defaults to None and is_active to True. */
  function InputWithDefaults(name: Value): (i: Input)
    ensures i.name == name && i.description == Null && i.isActive == Bool(true)
  {
    Input(name, Null, Bool(true))
  }

  /** `Input(name, description)`: is_active defaults to True. */
  function InputWithDescription(name: Value, description: Value): (i: Input)
    ensures i.name == name && i.description == description && i.isActive == Bool(true)
    ensures description == Null ==> i == InputWithDefaults(name)
  {
    Input(name, description, Bool(true))
  }

  /** `CreateCategoryUseCase.Output`. */
  datatype Output = Output(id: string, name: Value, description: Value, isActive: Value, createdAt: Value)

  /** The value of field `name` of a category (None if it has no such field). */
  function Field(category: Entity, name: string): Value
    reads category
  {
    var d := PropsDict(category.props);
    if name in d then d[name] else Null
  }

  /** The Output echoing a category's fields. */
  function OutputOf(category: Entity): Output
    reads category
  {
    Output(category.Id(), Field(category, "name"), Field(category, "description"),
           Field(category, "is_active"), Field(category, "created_at"))
  }

  // ------------------------------------------------ CreateCategoryUseCase

  class CreateCategoryUseCase {
    const categoryRepo: InMemoryRepository

    constructor (categoryRepo: InMemoryRepository)
      ensures this.categoryRepo == categoryRepo
    {
      this.categoryRepo := categoryRepo;
    }

    /** `execute`. The UUID drawn for the new category's id and the clock's
        reading for its created_at are parameters. An invalid input raises
        before anything is inserted; a valid one appends exactly one new
        category at the end of the repository and echoes its fields, which
        are those of the input. */
    method Execute(input: Input, drawn: Uuid, now: int) returns (r: Result<Output>)
      modifies categoryRepo
      ensures ValidateCategory(input.name, input.description, input.isActive).Fail? ==>
                r == Err(ValidateCategory(input.name, input.description, input.isActive).error) &&
                categoryRepo.items == old(categoryRepo.items)
      ensures ValidateCategory(input.name, input.description, input.isActive).Pass? ==>
                |categoryRepo.items| == |old(categoryRepo.items)| + 1 &&
                categoryRepo.items[..|old(categoryRepo.items)|] == old(categoryRepo.items) &&
                var category := categoryRepo.items[|old(categoryRepo.items)|];
                && fresh(category)
                && category.Valid()
                && category.uniqueEntityId == Generate(drawn)
                && category.props == CategoryProps(input.name, input.description, input.isActive, DateTime(now))
                && r == Ok(OutputOf(category))
                && r.value == Output(category.Id(), input.name, input.description, input.isActive, DateTime(now))
    {
      var valid := ValidateCategory(input.name, input.description, input.isActive);
      if valid.Fail? {
        return Err(valid.error);
      }
      var category := new Entity.WithGeneratedId(drawn,
        CategoryProps(input.name, input.description, input.isActive, DateTime(now)));
      categoryRepo.Insert(category);
      CategoryPropsDict(input.name, input.description, input.isActive, DateTime(now));
      return Ok(OutputOf(category));
    }
  }

  /** The scenario of the use case's unit test: three executions on an empty
      repository append three categories in call order, and each Output
      echoes its own input with the defaults applied. */
  method ExecuteThreeTimes(d1: Uuid, d2: Uuid, d3: Uuid, t1: int, t2: int, t3: int)
    returns (repo: InMemoryRepository, o1: Result<Output>, o2: Result<Output>, o3: Result<Output>)
    ensures |repo.items| == 3
    ensures o1 == Ok(Output(repo.items[0].Id(), Str("Movie"), Null, Bool(true), DateTime(t1)))
    ensures o2 == Ok(Output(repo.items[1].Id(), Str("teste"), Str("some"), Bool(true), DateTime(t2)))
    ensures o3 == Ok(Output(repo.items[2].Id(), Str("teste"), Str("some"), Bool(false), DateTime(t3)))
    ensures o1 == Ok(OutputOf(repo.items[0])) && o2 == Ok(OutputOf(repo.items[1])) &&
            o3 == Ok(OutputOf(repo.items[2]))
    ensures repo.items[0].Id() == UuidToString(d1) && repo.items[1].Id() == UuidToString(d2)
            && repo.items[2].Id() == UuidToString(d3)
  {
    repo := new InMemoryRepository();
    var useCase := new CreateCategoryUseCase(repo);
    CategoryValidIff(Str("Movie"), Null, Bool(true));
    CategoryValidIff(Str("teste"), Str("some"), Bool(true));
    CategoryValidIff(Str("teste"), Str("some"), Bool(false));
    o1 := useCase.Execute(InputWithDefaults(Str("Movie")), d1, t1);
    var first := repo.items[0];
    o2 := useCase.Execute(InputWithDescription(Str("teste"), Str("some")), d2, t2);
    assert repo.items[0] == first;
    o3 := useCase.Execute(Input(Str("teste"), Str("some"), Bool(false)), d3, t3);
  }
}
