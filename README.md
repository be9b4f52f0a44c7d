# Category domain layer in Dafny

This project models the framework-free domain layer of a Category CRUD
backend and proves properties of that model. It has five parts, one module
each:

- `Repositories` is the generic in-memory repository. A class holds the
  ordered list of entities and offers `insert`, `find_by_id`, `find_all`,
  `update`, `delete` and `_get`. `_get` is a linear search for the first
  entity with a given id string, and a missing id raises
  NotFoundException.
- `Validators` holds the chainable validation rules of `ValidatorRules`:
  `values`, `required`, `string`, `max_length` and `boolean`. Each rule
  either raises a ValidationException whose message names the property,
  or returns the rules object itself. A chain of calls therefore reports
  its first failing rule.
- `UseCases` holds `CreateCategoryUseCase.execute` with its `Input`
  defaults and its `Output` record. It also states the validation a
  Category runs when it is built: name required, a string, and at most
  255 characters; description a string; is_active a boolean.
- `Entities` holds the base `Entity`: the `id` property, `to_dict`, `_set`
  and the default generated id.
- `ValueObjects` holds `UniqueEntityId`, which normalises its id to a
  string, validates it as a UUID once, and has the string form `str(uid)`.
  It also holds the shared string form `ValueObject.__str__`.

Two more modules support these. `Errors` defines the exceptions as error
values (NotFoundException, ValidationException, InvalidUuidException, and
Python's TypeError) and the `Result`/`Outcome` wrappers that operations
which can raise return. `Values` defines the dynamically typed Python
values the rules inspect, with `len` and `str` of an integer.

Exceptions are results: a method or function that can raise returns
`Err(e)` or `Fail(e)`, carrying the exact message of the exception. The
UUID drawn by `uuid.uuid4` and the clock reading for `created_at` are
parameters of the operations that use them.

The Category entity's own source file is not part of this model. Its
rules come from the Category integration tests. Those show the
messages, but not the order in which the three fields are checked. The
model checks name, then description, then is_active, the order in which
`Input` and `Output` declare them (src/category/application/use_cases.py:26-37).

## Model

| member | source | states |
|---|---|---|
| Values.HasLen | src/__seedwork/domain/validators.py:27 | the values Python's `len` accepts: strings, lists and dicts (no contract; the guard of `MaxLength`'s length cases) |
| Values.Len | src/__seedwork/domain/validators.py:27 | `len(v)` of a sized value: the number of characters, elements or keys (no contract; used by `MaxLength`'s contract) |
| Values.TypeName | src/__seedwork/domain/validators.py:27 | the type name in `len`'s TypeError for each unsized value: 'NoneType', 'int', 'bool', 'float', 'datetime.datetime' (no contract) |
| Values.NoLenMessage | src/__seedwork/domain/validators.py:27 | the TypeError text "object of type '<name>' has no len()" (no contract; `MaxLength` ensures an unsized value raises it) |
| Values.NatToString | src/__seedwork/domain/validators.py:29 | `str(n)` for the `{length}` of the message: at least one character, all decimal digits, no leading zero unless n is 0 |
| Values.NatToStringRoundTrip | src/__seedwork/domain/validators.py:29 | `int(str(n)) == n` for every natural number |
| Values.IntToString | src/__seedwork/domain/validators.py:29 | `str(i)`: non-empty, with a leading '-' exactly when i is negative; pinned for 5 by MaxLengthMessageOfProp |
| Values.IntToStringRoundTrip | src/__seedwork/domain/validators.py:29 | `int(str(i)) == i`: the digits after the sign read back as the magnitude |
| Validators.RequiredMessage | src/__seedwork/domain/validators.py:18 | the f-string "<prop> is required" (no contract; pinned by RequiredMessageOfProp) |
| Validators.StringMessage | src/__seedwork/domain/validators.py:23 | the f-string "<prop> must be a string" (no contract; pinned by StringMessageOfProp) |
| Validators.MaxLengthMessage | src/__seedwork/domain/validators.py:29 | the f-string "<prop> must be at most <length> characters long" (no contract; pinned by MaxLengthMessageOfProp) |
| Validators.BooleanMessage | src/__seedwork/domain/validators.py:34 | the f-string "<prop> must be a boolean" (no contract; pinned by BooleanMessageOfProp) |
| Validators.MakeRules | src/__seedwork/domain/validators.py:12-14 | `values(v, p)` builds a rules object holding exactly `v` and `p` |
| Validators.ValidatorRules.Required | src/__seedwork/domain/validators.py:16-19 | fails exactly when the value is None or the empty string (0 and False pass), with "<prop> is required"; on success returns the same object |
| Validators.ValidatorRules.IsString | src/__seedwork/domain/validators.py:21-24 | fails exactly when the value is neither None nor a str, with "<prop> must be a string"; on success returns the same object |
| Validators.ValidatorRules.MaxLength | src/__seedwork/domain/validators.py:26-30 | passes exactly when the value is None or has a length of at most `length` (exactly `length` passes); a longer one fails with "<prop> must be at most <length> characters long"; a non-None value without a length raises Python's TypeError |
| Validators.ValidatorRules.IsBoolean | src/__seedwork/domain/validators.py:32-35 | fails exactly when the value is neither None nor a bool, with "<prop> must be a boolean"; on success returns the same object |
| Validators.ApplyKeepsRules | src/__seedwork/domain/validators.py:19-35 | a passing rule of any kind returns the object it was called on |
| Validators.Apply | src/__seedwork/domain/validators.py:16-35 | one call in a chain: the rule's own method on the rules object (the properties are in `ApplyKeepsRules` and the four rule functions) |
| Validators.Chain | src/__seedwork/domain/validators.py:16-35 | a chain `rules.r0().r1()...`: each rule is called on what the previous one returned, and the first exception ends the chain (its properties are `ChainPasses` and `ChainFirstFailure`) |
| Validators.ChainPasses | src/__seedwork/domain/validators.py:16-35 | a chain of calls raises nothing exactly when each of its rules passes on the original object, and it then returns that object |
| Validators.ChainFirstFailure | src/__seedwork/tests/unit/domain/test_unit_validators.py:118-146 | a chain reports the error of its first failing rule, whatever the later rules would say |
| Validators.ChainOfOne | src/__seedwork/domain/validators.py:16-35 | a one-rule chain is that rule |
| Validators.ChainReportsRequired | src/__seedwork/tests/unit/domain/test_unit_validators.py:119-122 | `values(None,'prop').required().string().max_length(5)` raises the required message |
| Validators.ChainReportsString | src/__seedwork/tests/unit/domain/test_unit_validators.py:124-128 | `values(5,'prop')` on the same chain raises the string message |
| Validators.ChainReportsLength | src/__seedwork/tests/unit/domain/test_unit_validators.py:130-135 | `values('valuee','prop')` on the same chain raises the length message for 5 |
| Validators.ChainReportsRequiredBeforeBoolean | src/__seedwork/tests/unit/domain/test_unit_validators.py:137-140 | `values(None,'prop').required().boolean()` raises the required message |
| Validators.ChainReportsBoolean | src/__seedwork/tests/unit/domain/test_unit_validators.py:142-146 | `values('1','prop').required().boolean()` raises the boolean message |
| Validators.RequiredMessageOfProp | src/__seedwork/tests/unit/domain/test_unit_validators.py:28 | the required message for 'prop' is "prop is required" |
| Validators.StringMessageOfProp | src/__seedwork/tests/unit/domain/test_unit_validators.py:53-54 | the string message for 'prop' is "prop must be a string" |
| Validators.BooleanMessageOfProp | src/__seedwork/tests/unit/domain/test_unit_validators.py:105-106 | the boolean message for 'prop' is "prop must be a boolean" |
| Validators.MaxLengthMessageOfProp | src/__seedwork/tests/unit/domain/test_unit_validators.py:134 | the length message for 'prop' and 5 is "prop must be at most 5 characters long" |
| Validators.ValidChainsPass | src/__seedwork/tests/unit/domain/test_unit_validators.py:148-154 | the chains of the valid-combination test raise nothing |
| ValueObjects.HexChar | src/core/__seedwork/domain/value_objects.py:22 | every digit of a UUID's string form is a hexadecimal digit |
| ValueObjects.UuidToString | src/core/__seedwork/domain/value_objects.py:22 | `str(u)` of a UUID object: its digits in groups of 8-4-4-4-12 joined by hyphens (what that form satisfies is `UuidToStringIsUuid`) |
| ValueObjects.IsUuid | src/core/__seedwork/domain/value_objects.py:28 | the ids `uuid.UUID(id)` accepts, restricted to the canonical form: 36 characters, hyphens at 8, 13, 18 and 23, hexadecimal digits elsewhere |
| ValueObjects.Normalize | src/core/__seedwork/domain/value_objects.py:22 | a UUID object becomes its string form, a string stays as it is (stated in `CreateFromString` and `CreateFromUuid`) |
| ValueObjects.UniqueEntityId.ToString | src/core/__seedwork/domain/value_objects.py:32-33 | `str(uid)` is the id (stated in `UniqueEntityIdToStringIsValueObjectString` and `Generate`) |
| ValueObjects.UuidToStringIsUuid | src/core/__seedwork/domain/value_objects.py:22 | `str(u)` of every UUID object is in the canonical 8-4-4-4-12 form and carries the UUID's 32 digits in order |
| ValueObjects.Validate | src/core/__seedwork/domain/value_objects.py:26-30 | passes exactly when the id is a UUID; otherwise raises InvalidUuidException('Invalid UUID') |
| ValueObjects.Create | src/core/__seedwork/domain/value_objects.py:21-30 | construction succeeds exactly when the normalised id is a UUID; the stored id is the normalised one; failure is InvalidUuidException('Invalid UUID') |
| ValueObjects.CreateFromString | src/core/__seedwork/domain/value_objects.py:21-30 | a valid string is kept unchanged as `id`, and an invalid one raises 'Invalid UUID' |
| ValueObjects.CreateFromUuid | src/core/__seedwork/domain/value_objects.py:22-24 | a UUID object is stored as its string form, and that always validates |
| ValueObjects.Generate | src/core/__seedwork/domain/value_objects.py:19 | default construction yields an id that passes validation, and `str(uid)` is that id |
| ValueObjects.TestIdIsAccepted | src/__seedwork/tests/unit/domain/test_unit_value_objects.py:62-71 | the id 'a0eebc99-9c0b-4ef8-bb6d-6bb9bd380a11' is accepted and kept |
| ValueObjects.TestIdIsRefused | src/__seedwork/tests/unit/domain/test_unit_value_objects.py:50-60 | 'invalid-uuid' raises InvalidUuidException('Invalid UUID') |
| ValueObjects.Member | src/core/__seedwork/domain/value_objects.py:14 | one `"name": "value"` pair as `json.dumps` writes it |
| ValueObjects.Members | src/core/__seedwork/domain/value_objects.py:14 | the pairs of a JSON object in declaration order, separated by ", " |
| ValueObjects.JsonObject | src/core/__seedwork/domain/value_objects.py:14 | `json.dumps` of a dict of plain strings; `JsonObjectRoundTrip` proves it reads back as the same fields in order |
| ValueObjects.ValueObjectToString | src/core/__seedwork/domain/value_objects.py:10-14 | one field gives that field's string; any other number of plain-string fields gives the JSON object of name to value, in declaration order |
| ValueObjects.StubOneToString | src/__seedwork/tests/unit/domain/test_unit_value_objects.py:35-36 | the one-field stub prints as its value 'prop-value' |
| ValueObjects.MemberOfProp1 | src/__seedwork/tests/unit/domain/test_unit_value_objects.py:39 | the first pair is written '"prop1": "prop1-value"' |
| ValueObjects.MemberOfProp2 | src/__seedwork/tests/unit/domain/test_unit_value_objects.py:39 | the second pair is written '"prop2": "prop2-value"' |
| ValueObjects.MembersOfStubTwo | src/__seedwork/tests/unit/domain/test_unit_value_objects.py:39 | the two pairs are joined as '"prop1": "prop1-value", "prop2": "prop2-value"' |
| ValueObjects.StubTwoToString | src/__seedwork/tests/unit/domain/test_unit_value_objects.py:38-39 | the two-field stub prints as '{"prop1": "prop1-value", "prop2": "prop2-value"}' |
| ValueObjects.UniqueEntityIdToStringIsValueObjectString | src/core/__seedwork/domain/value_objects.py:32-33 | `str(uid)` is `uid.id`, which is also the single-field value-object string |
| ValueObjects.QuotePos | src/core/__seedwork/domain/value_objects.py:14 | the reader finds the first quote character, with none before it |
| ValueObjects.ReadQuoted | src/core/__seedwork/domain/value_objects.py:14 | reading one quoted string always consumes input |
| ValueObjects.QuotePosAfter | src/core/__seedwork/domain/value_objects.py:14 | the first quote after a quote-free string is the one that closes it |
| ValueObjects.ReadQuotedOf | src/core/__seedwork/domain/value_objects.py:14 | a quoted string written by the JSON writer reads back as itself, with the rest of the input left over |
| ValueObjects.ReadMemberFront | src/core/__seedwork/domain/value_objects.py:14 | one `"name": "value"` pair reads back as itself, before the end or before ", " |
| ValueObjects.ReadMembersOf | src/core/__seedwork/domain/value_objects.py:14 | the pairs the JSON writer emits read back as the same fields, in order |
| ValueObjects.JsonObjectRoundTrip | src/core/__seedwork/domain/value_objects.py:14 | the JSON object of a multi-field value object reads back as exactly its fields, in declaration order |
| Entities.PropsDict | src/core/__seedwork/domain/entities.py:22 | the dict `asdict` builds from the declared fields (its keys and values are `PropsDictKeys` and `PropsDictValues`) |
| Entities.PropsDictKeys | src/core/__seedwork/domain/entities.py:22 | `asdict` has one key per declared field |
| Entities.PropsDictAt | src/core/__seedwork/domain/entities.py:22 | with distinct field names, each field's name maps to its own value |
| Entities.PropsDictValues | src/core/__seedwork/domain/entities.py:22 | every field's name maps to its own value |
| Entities.Replaced | src/core/__seedwork/domain/entities.py:17-18 | setting a field changes that field's value and no other, keeps the names and their order, and keeps the fields well formed |
| Entities.ReplacedDict | src/core/__seedwork/domain/entities.py:17-18 | setting a declared field changes exactly that key of the dict; setting another name changes nothing |
| Entities.ReplacedDictWithId | src/core/__seedwork/domain/entities.py:17-25 | the same holds once `to_dict` adds 'id', which setting a field never touches |
| Entities.Entity.constructor | src/core/__seedwork/tests/unit/domain/test_unit_entities.py:29-33 | a supplied UniqueEntityId and the given props are stored unchanged |
| Entities.Entity.WithGeneratedId | src/core/__seedwork/domain/entities.py:11 | an entity built without an id gets the generated UniqueEntityId, whose id is a valid UUID |
| Entities.Entity.Id | src/core/__seedwork/domain/entities.py:13-15 | `entity.id` is `unique_entity_id.id`, and it is always a valid UUID, since every UniqueEntityId was validated when built |
| Entities.Entity.AsDict | src/core/__seedwork/domain/entities.py:22 | `asdict(self)` has every declared field plus 'unique_entity_id', which maps to the nested dict `{'id': entity.id}` |
| Entities.Entity.ToDict | src/core/__seedwork/domain/entities.py:21-25 | the keys are the declared fields plus 'id'; there is no 'unique_entity_id'; 'id' is `entity.id`; every field maps to its value |
| Entities.Entity.Set | src/core/__seedwork/domain/entities.py:17-19 | `_set` changes only the named field, returns the same entity, and changes `to_dict` at that key only |
| Errors.NotFoundMessage | src/__seedwork/domain/repositories.py:63 | the message "Entity not using ID '<id>'" (used in the contracts of `Get`, `Update` and `Delete`) |
| Repositories.KeyString | src/__seedwork/domain/repositories.py:43 | `str(entity_id)` is the id string of a UniqueEntityId, and a string itself |
| Repositories.FirstIndex | src/__seedwork/domain/repositories.py:61 | the position of the first entity with the id, with none before it; none exactly when no entity has the id |
| Repositories.RemoveAt | src/__seedwork/domain/repositories.py:57 | removing one position keeps the order of the rest |
| Repositories.FindAfterInsert | src/__seedwork/domain/repositories.py:39-40 | after an insert, earlier entities are found as before, and the new one is found unless an earlier entity has its id |
| Repositories.FindAfterUpdate | src/__seedwork/domain/repositories.py:49-52 | after an update, the entity's id finds the new entity at the same position, and unique ids stay unique |
| Repositories.FindAfterDelete | src/__seedwork/domain/repositories.py:54-57 | with unique ids, a deleted entity's id is no longer found, and the rest keep unique ids |
| Repositories.InMemoryRepository.constructor | src/__seedwork/domain/repositories.py:37 | a fresh repository holds no items |
| Repositories.InMemoryRepository.Insert | src/__seedwork/domain/repositories.py:39-40 | appends the entity at the end and leaves the earlier items as they were; duplicate ids are accepted |
| Repositories.InMemoryRepository.Get | src/__seedwork/domain/repositories.py:59-64 | returns the first item whose id is `id`; when none has it, raises NotFoundException("Entity not using ID '<id>'") |
| Repositories.InMemoryRepository.FindById | src/__seedwork/domain/repositories.py:42-44 | finds an entity exactly when some item has the key's id string, and then returns the first such item; a string and a UniqueEntityId find the same entity; otherwise the exact NotFound message; changes nothing |
| Repositories.InMemoryRepository.FindAll | src/__seedwork/domain/repositories.py:46-47 | returns exactly the current items, in insertion order |
| Repositories.InMemoryRepository.IndexOf | src/__seedwork/domain/repositories.py:51 | `list.index`: the first position that holds the entity |
| Repositories.InMemoryRepository.Update | src/__seedwork/domain/repositories.py:49-52 | replaces the item at the position of the first item with the entity's id, and no other; a missing id raises NotFound and leaves the items unchanged |
| Repositories.InMemoryRepository.Delete | src/__seedwork/domain/repositories.py:54-57 | removes exactly the first item with the key's id and keeps the order of the rest; a missing id raises NotFound and leaves the items unchanged |
| UseCases.ValidateCategory | src/category/application/use_cases.py:13-15 | the validation of the Category construction: the first failing rule of name, description and is_active (its cases are `CategoryNameErrors`, `CategoryFieldErrors` and `CategoryValidIff`) |
| UseCases.CategoryProps | src/category/application/use_cases.py:13-15 | the Category's fields (name, description, is_active, created_at) are well formed |
| UseCases.CategoryPropsDict | src/category/application/use_cases.py:17-23 | the Category's fields, read by name, are the values it was built with |
| UseCases.NameLengthMessage | src/category/tests/integration/domain/test_int_entities.py:21-24 | the name length message is "name must be at most 255 characters long" |
| UseCases.NameRequiredMessage | src/category/tests/integration/domain/test_int_entities.py:7-14 | the name required message is "name is required" |
| UseCases.NameStringMessage | src/category/tests/integration/domain/test_int_entities.py:16-19 | the name string message is "name must be a string" |
| UseCases.DescriptionStringMessage | src/category/tests/integration/domain/test_int_entities.py:26-30 | the description message is "description must be a string" |
| UseCases.IsActiveBooleanMessage | src/category/tests/integration/domain/test_int_entities.py:32-36 | the is_active message is "is_active must be a boolean" |
| UseCases.NameMissing | src/category/tests/integration/domain/test_int_entities.py:7-14 | a None or empty name fails the name chain as required |
| UseCases.NameNotString | src/category/tests/integration/domain/test_int_entities.py:16-19 | a name that is neither None nor a string fails as not a string |
| UseCases.NameTooLong | src/category/tests/integration/domain/test_int_entities.py:21-24 | a string name over 255 characters fails with the length message |
| UseCases.NameAccepted | src/category/tests/integration/domain/test_int_entities.py:38-44 | a non-empty string name of at most 255 characters passes |
| UseCases.NameRulesCases | src/category/tests/integration/domain/test_int_entities.py:7-24 | the name chain, case by case, in rule order |
| UseCases.CategoryNameErrors | src/category/tests/integration/domain/test_int_entities.py:7-24 | a bad name is reported first, with the message of its first failing rule |
| UseCases.CategoryFieldErrors | src/category/tests/integration/domain/test_int_entities.py:26-36 | with a valid name, a non-string description is reported, and after it a non-bool is_active |
| UseCases.CategoryValidIff | src/category/tests/integration/domain/test_int_entities.py:7-44 | a Category is valid exactly when its name is a non-empty string of at most 255 characters, its description is None or a string, and its is_active is None or a bool |
| UseCases.CategoryExamples | src/category/tests/integration/domain/test_int_entities.py:7-44 | every `Category(...)` call of the create tests: None and '' are required errors, 5 is a string error, 256 characters a length error, description 5 and is_active 'True' are type errors, and the three valid calls pass |
| UseCases.Field | src/category/application/use_cases.py:19-22 | the value of one field of the category, as `category.<name>` reads it |
| UseCases.OutputOf | src/category/application/use_cases.py:17-23 | the Output echoing the category's id and its four fields (`Execute` proves it equal to the input's) |
| UseCases.InputWithDefaults | src/category/application/use_cases.py:25-29 | `Input(name)` has description None and is_active True |
| UseCases.InputWithDescription | src/category/application/use_cases.py:25-29 | `Input(name, description)` has is_active True, and with description None it is `Input(name)` |
| UseCases.CreateCategoryUseCase.constructor | src/category/application/use_cases.py:10 | the use case holds the repository it is given |
| UseCases.CreateCategoryUseCase.Execute | src/category/application/use_cases.py:12-23 | invalid input raises the validation error and changes no item; valid input appends exactly one new category at the end, with the generated id and the input's fields, and returns an Output equal to that category's fields and to the input's |
| UseCases.ExecuteThreeTimes | src/category/tests/unit/application/test_unit_use_case.py:43-79 | three executions on an empty repository append three categories in call order; the k-th Output is the Output of `items[k-1]`, has its id and created_at, and echoes its input with the defaults applied |

## Left out

- The class-level `items` list (src/__seedwork/domain/repositories.py:37) is shared by every instance that never reassigns it. The model gives each repository object its own sequence.
- `to_dict` returns a dict in insertion order: the declared fields, then 'id'. The model's `map` has no order. Nothing in the core relies on that order.
- `find_all` returns the repository's own list object, so later changes to the store show through it. The model returns the value of the sequence.
- `list.index` and `list.remove` look for the first item that is the entity itself or equal to it (dataclass equality). The first such item equal to the found entity has the same id, so it sits at the position `_get` found. The model therefore takes that first position directly. `Delete` removes at the position of the first item with the id.
- The `ValueError` of `list.index` cannot be reached from `update`, because the entity it looks for was just found in the list. `IndexOf` therefore requires the entity to be in the list.
- `_get` tests `not entity`. Entities define neither `__bool__` nor `__len__`, so that test means "no entity was found".
- Python's `uuid.UUID` accepts more than the canonical form. It removes the strings 'urn:' and 'uuid:' wherever they stand, strips any run of braces at each end, and removes every hyphen wherever it stands. It then needs 32 characters that `int(hex, 16)` reads, which allows, for example, surrounding whitespace, a leading '+', a '0x' or '0X' prefix, '_' between digits and Unicode decimal digits. The model accepts only the canonical 8-4-4-4-12 hexadecimal form, in either case.
- An id that is neither a string nor a UUID object is not modelled. `UniqueEntityId(None)` and `UniqueEntityId(5)` make `uuid.UUID` raise TypeError or AttributeError, which `except ValueError` (src/core/__seedwork/domain/value_objects.py:29) does not turn into InvalidUuidException. `ValueObjects.IdSource` has only the string and UUID cases.
- `uuid.uuid4` and the clock are parameters: the UUID drawn (any 32 nibbles) and the `created_at` instant.
- ValueObjects.ValueObjectToString: the JSON form covers plain string names and values only (printable ASCII, no quote, no backslash). This restriction is written into its `requires`. `json.dumps` escaping and non-string field values are not modelled.
- `__post_init__` overwrites `id` in place and then validates. The model states this as a pure constructor, `ValueObjects.Create`, that normalises and then validates once. That validation runs exactly once is implicit in that form, not counted.
- Entities.Entity.Set: three cases are not modelled.
  - `_set('id', v)` raises AttributeError, because `id` is a property without a setter (src/core/__seedwork/domain/entities.py:13-15). The model returns the entity unchanged.
  - `_set` with another name that is not a declared field adds a new attribute, or raises AttributeError when the subclass has slots only. The model returns the entity unchanged.
  - `_set('unique_entity_id', v)` replaces the id, without validation. The model keeps the id constant.
- The Category entity's source is not part of this model. Its construction is modelled by `UseCases.ValidateCategory` and `UseCases.CategoryProps`, which follow the rules its tests assert. The order name, description, is_active is assumed. `Category.update` is not modelled.
- Not modelled:
  - `DRFValidator` and the serializer fields
  - the ORM repository and the HTTP layer
  - the dependency-injection container
  - the list/search use case, whose source is not part of this model
  - `Entity.get_field`, which is dataclass reflection
  - frozen-instance errors
  - the abstract-class TypeError messages
- `src/__seedwork/domain/exceptions.py` defines only InvalidUuidException and ValidationException, yet `src/__seedwork/domain/repositories.py:6` imports NotFoundException from it. The model gives NotFoundException the message `_get` passes at `src/__seedwork/domain/repositories.py:63`.
