# UserAPISample2 — a Dafny model of the user service, its controller and its validation rules

UserAPISample2 is a small ASP.NET Core CRUD service for one resource, `User`, kept in MongoDB,
with a counters collection for named sequences. This project models the repository's own logic
with the database replaced by an in-memory store:

- **`UserService`** (`user_service.dfy`, module `Services`): a class whose methods read and write a
  `DocumentStore`, which holds the users collection as a map from `_id` to document and the counters
  collection as a map from sequence name to `seq`. `User.Id` is stored as an ObjectId
  (`[BsonRepresentation(BsonType.ObjectId)]`, `Models/User.cs:9-11`), so the users map is keyed by
  the ObjectId written in canonical text: ids that differ only in the case of their letters name one
  document, and a stored document reads back with the canonical id. Each method states its result
  exactly, the new contents of the collection it writes, and that the other collection is untouched.
  Driver errors (an id that is not the text of an ObjectId, a duplicate `_id` on insert, a
  replacement that would change `_id`) are returned as `Failure` values, standing for the exceptions
  the driver raises. A ghost `calls` record lists the service operations invoked, like a mock's
  invocation record.
- **`UserController`** (`user_controller.dfy`, module `Controllers`): the five actions over the real
  in-memory service. Their contracts give the HTTP result in terms of the stored documents, the
  order of the checks (model state, then id format), the id handed to the service, the overwrite of
  the payload's id in `UpdateUser`, and which service calls were made.
- **Validation** (`validation.dfy`, `decimal_pattern.dfy`): the `[Required]`, `[StringLength]`,
  `[EmailAddress]`, `[Url]` and `[RegularExpression]` attributes of `User.cs` as predicates, the
  model-state error report (every failing attribute once, and nothing else), and a hand-coded recogniser for `^(-?\d+(\.\d+)?)$` proved equal to the
  language the pattern describes.
- **ObjectIds** (`object_ids.dfy`): `ObjectId.TryParse` and `ToString` as a hex codec over 12 bytes,
  with round-trip lemmas; the controller's "canonical id" and the store's key are `Canonical`.
- `models.dfy` holds the documents (`User`, `Address`, `Geo`, `Company`, `Counter`) and `UserObject`,
  the C# `User` reference that the store and the controller write an id into. `wrappers.dfy` holds
  `Option` (C# `null`) and `Result` (a propagated exception).

`IncrementSeq` passes only `ReturnDocument.After` and no upsert option
(`Services/UserService.cs:33-37`), so an unknown sequence name returns null and no counter is
created on first use.

Assumptions about the MongoDB driver, the BSON library and ASP.NET Core:

- `ObjectId.TryParse` accepts exactly 24 hexadecimal digits in either case, and `ToString` writes
  the 12 bytes as 24 lower-case hexadecimal digits.
- The driver turns an id string into an ObjectId with the same rule as `TryParse`, and throws a
  `FormatException` for one that is not ObjectId text, whether it is a filter value or a
  document's id; nothing is written then.
- On insert, the driver writes a freshly generated ObjectId into a `User` whose `Id` is null or empty (`string.IsNullOrEmpty`); the
  generated value is a parameter (`generated`) of `CreateUserAsync`.
- `ReplaceOne` matching nothing reports a modified count of 0; replacing a document by an identical
  one also reports 0; replacing it by one with any other `_id` (a null one included) is refused by
  the server.
- `[Required]` refuses null and strings of white space only (`char.IsWhiteSpace`);
  `[StringLength]`, `[EmailAddress]` and `[Url]` accept null; `[RegularExpression]` accepts null and
  the empty string and otherwise needs a match of the whole string. Rules on `Geo` and `Company`
  apply only when those objects are present.

## Model

| member | source | states |
|---|---|---|
| `Services.UserService.New` | UserAPISample2/Services/UserService.cs:14-21 | a null context throws `ArgumentNullException("mongoDbContext")`; a null settings object throws a null reference; a null users or counters collection name throws `ArgumentNullException("settings")`; otherwise a new service holds the context and both names |
| `Services.UserService.IncrementSeq` | UserAPISample2/Services/UserService.cs:28-40 | an existing counter's `seq` becomes old + 1 and the counter after the update is returned; an unknown name returns null and leaves the counters unchanged (no upsert); users are untouched |
| `Services.UserService.GetUserAsync` | UserAPISample2/Services/UserService.cs:42-47 | an id that is not ObjectId text raises a format error; otherwise returns the document stored under that ObjectId (whatever the case of the id's letters), which carries the canonical id, or null exactly when none is stored; nothing is written |
| `Services.UserService.GetUsersAsync` | UserAPISample2/Services/UserService.cs:49-53 | returns every stored user exactly once and nothing else (`IsListing`); nothing is written |
| `Services.UserService.CreateUserAsync` | UserAPISample2/Services/UserService.cs:55-62 | returns the very object passed in; an object whose id is null or empty receives the generated id; an id that is not ObjectId text raises a format error; an ObjectId already stored, in any letter case, raises a duplicate-key error; either error leaves the store unchanged; otherwise the document is added under the ObjectId with its id in canonical text; counters untouched; the store invariant (each document under its own canonical id) is kept |
| `Services.UserService.UpdateUserAsync` | UserAPISample2/Services/UserService.cs:64-69 | a filter id or replacement id that is not ObjectId text raises a format error; false and no change when no document has the ObjectId; a replacement with no id or another ObjectId raises an error and changes nothing; otherwise the document is replaced (id in canonical text), and the result is true exactly when it differed from the stored one; counters untouched |
| `Services.UserService.DeleteUserAsync` | UserAPISample2/Services/UserService.cs:71-76 | an id that is not ObjectId text raises a format error and changes nothing; otherwise true exactly when a document with that ObjectId existed, and afterwards none has it and every other document is unchanged |
| `Services.WithAssignedId` | UserAPISample2/Services/UserService.cs:60 | after insert the document always has an id: the one it carried when that is neither null nor empty, or else the generated one, with every other field unchanged |
| `Services.AsStored` | UserAPISample2/Models/User.cs:9-11 | a document stored under an ObjectId reads back with that ObjectId's canonical text as its id and every other field as written |
| `Services.ListsOneMore` | UserAPISample2/Services/UserService.cs:51-52 | reading one more document from the cursor keeps the list an exact, duplicate-free listing of the documents read so far |
| `Services.CreateGetDeleteScenario` | UserAPISample2/Services/UserService.cs:42-76 | a user posted without id gets a well-formed id, reads back with its name, username and e-mail, deletes with true, then reads as null, and the collection ends as it began |
| `Services.IncrementTwiceScenario` | UserAPISample2/Services/UserService.cs:28-40 | two increments of an existing counter return old + 1 and old + 2 in that order |
| `Controllers.UserController.GetAllUsers` | UserAPISample2/Controllers/UserController.cs:24-28 | always Ok carrying a listing of every stored user; one `GetUsersAsync` call |
| `Controllers.UserController.GetUserById` | UserAPISample2/Controllers/UserController.cs:34-48 | an id that is not an ObjectId gives BadRequest with no service call; otherwise one lookup by the canonical id, NotFound when absent and Ok with the stored document when present |
| `Controllers.UserController.CreateUser` | UserAPISample2/Controllers/UserController.cs:54-63 | model-state errors give BadRequest with those errors, no service call and nothing changed; otherwise one create call, then Created with the id the object now carries, as posted or generated, and the object as body; the document is stored under that ObjectId; an id that is not ObjectId text or is taken propagates the store's error |
| `Controllers.UserController.UpdateUser` | UserAPISample2/Controllers/UserController.cs:70-91 | model state is checked before the id, so model-state errors give BadRequest even for a malformed id; a malformed id then gives BadRequest; otherwise the payload's id becomes the canonical path id, the same id goes to the service, and the answer is NotFound for a missing or unchanged document and NoContent after a real replacement; no store error can escape |
| `Controllers.UserController.DeleteUser` | UserAPISample2/Controllers/UserController.cs:97-111 | a malformed id gives BadRequest with no service call and no change; otherwise one delete by the canonical id, NoContent exactly when a document was removed and NotFound exactly when none was |
| `Controllers.StatusCode` | UserAPISample2/Controllers/UserController.cs:27-110 | each result has one of the status codes 200, 201, 204, 400, 404; 400 exactly for BadRequest and 404 exactly for NotFound |
| `Controllers.PostThenGetScenario` | UserAPISample2/Controllers/UserController.cs:34-62 | the id in the Created result of a post (generated for a null or empty id, or posted in any letter case) leads `GetUserById` to the posted user, now carrying the canonical id |
| `ObjectIds.Canonical` | UserAPISample2/Controllers/UserController.cs:36-41 | the path id parses exactly when it is 24 hexadecimal digits, and its canonical form is the same digits in lower case |
| `ObjectIds.TryParseCharacterised` | UserAPISample2/Controllers/UserController.cs:77-82 | `TryParse` succeeds exactly on 24 hexadecimal digits, and `ToString` of the result is the input lower-cased |
| `ObjectIds.ParseToString` | UserAPISample2/Controllers/UserController.cs:36-41 | the model's hex codec, which stands for the BSON library's ObjectId: the text `ToString` writes parses back to the same 12 bytes; supports the stated `TryParse`/`ToString` assumption |
| `ObjectIds.CanonicalIdempotent` | UserAPISample2/Controllers/UserController.cs:82-84 | canonicalising the canonical id changes nothing, so the id written into the payload and the id sent to the service agree with what a later lookup uses |
| `ObjectIds.CanonicalIgnoresCase` | UserAPISample2/Models/User.cs:9-11 | an id and its lower-cased text name the same ObjectId (or neither is one), so ids differing only in letter case are one `_id` |
| `ObjectIds.DecodeEncode` | UserAPISample2/Controllers/UserController.cs:36-41 | the model's hex codec, which stands for the BSON library's ObjectId: decoding the lower-case hex text of any bytes gives those bytes back; supports the stated `TryParse`/`ToString` assumption |
| `ObjectIds.DecodeSucceeds` | UserAPISample2/Controllers/UserController.cs:36-39 | the model's hex codec, which stands for the BSON library's ObjectId: hex decoding succeeds exactly on an even number of hexadecimal digits; supports the stated `TryParse` assumption |
| `ObjectIds.DecodeLowers` | UserAPISample2/Controllers/UserController.cs:41 | the model's hex codec, which stands for the BSON library's ObjectId: re-encoding decoded bytes yields the input text in lower case; supports the stated `ToString` assumption |
| `DecimalPattern.MatchesIffDecimal` | UserAPISample2/Models/User.cs:67 | the recogniser accepts exactly the strings `-?\d+(\.\d+)?` |
| `DecimalPattern.SamplesAccepted` | UserAPISample2/Models/User.cs:72 | "45", "-122.4194", "0.0", "-37.3159" match |
| `DecimalPattern.SamplesRejected` | UserAPISample2/Models/User.cs:72 | a leading plus, a bare dot on either side, an exponent, two dots, blanks, a lone sign, letters and the empty string do not match |
| `Validation.Errors` | UserAPISample2/Models/User.cs:13-87 | the model-state report holds an entry for a field and attribute exactly when that attribute fails on that field (rules of `Geo` and `Company` only when present), each entry once; it is empty exactly when the user is valid |
| `Validation.ValidIffNothingFails` | UserAPISample2/Models/User.cs:13-87 | a user is valid exactly when no attribute on any field fails |
| `Validation.ValidName` | UserAPISample2/Models/User.cs:15-17 | a valid user has a non-null, non-blank name of 3 to 255 characters |
| `Validation.ValidUsername` | UserAPISample2/Models/User.cs:21-23 | a valid user has a non-null, non-blank user name of 3 to 25 characters |
| `Validation.ValidEmail` | UserAPISample2/Models/User.cs:27-29 | a valid user has a non-null, non-blank e-mail address that the framework's e-mail check accepts |
| `Validation.WebsiteRule` | UserAPISample2/Models/User.cs:37-39 | a null website never makes a user invalid; a present one must pass the URL check |
| `Validation.UnconstrainedFields` | UserAPISample2/Models/User.cs:31-57 | any phone and any street, suite, city and zipcode, null included, leave validity unchanged; a valid user stays valid without an address |
| `Validation.CompanyRule` | UserAPISample2/Models/User.cs:76-87 | a present company needs a non-blank name of 3 to 255 characters; catch phrase and bs are free; a valid user stays valid without a company |
| `Validation.CoordinateRule` | UserAPISample2/Models/User.cs:65-73 | a coordinate passes `[Required]` and the pattern exactly when it is present and reads `-?\d+(\.\d+)?` |
| `Validation.GeoRule` | UserAPISample2/Models/User.cs:63-74 | a present `Geo` is valid exactly when both latitude and longitude are present and numeric in that form |
| `Validation.DecimalIsNotBlank` | UserAPISample2/Models/User.cs:66-67 | a string of the coordinate language is never empty or blank, so `[Required]` adds nothing to the pattern for a present value |
| `Validation.MissingEmailReported` | UserAPISample2/Models/User.cs:25-29 | a user without e-mail is reported under `Email` by `[Required]` |
| `Validation.ShortUsernameReported` | UserAPISample2/Models/User.cs:19-23 | a two-character user name is reported under `Username` by `[StringLength]` |
| `Validation.NonNumericLatitudeReported` | UserAPISample2/Models/User.cs:65-68 | a latitude "abc" is reported under `Address.Geo.Lat` by `[RegularExpression]` |
| `Validation.SampleUserValid` | UserAPISample2.Test/UserControllerTests.cs:83-93 | the user the controller test posts (name, username, e-mail only) is valid whenever the e-mail check accepts its address |

## Left out

- `async`/`Task`: every operation is a synchronous method.
- Concurrency: the atomicity of `FindOneAndUpdate` across concurrent callers and last-write-wins races between updates are not modelled; `Services.IncrementTwiceScenario` shows the sequential case only.
- Collection routing by name: the service keeps both collection names, but the store has exactly one users map and one counters map; two settings naming the same collection are not modelled.
- The database context (`MongoDbContext`, `IMongoDbContext`), the settings classes, `Program.cs` and `GlobalExceptionFilter`: plumbing and framework I/O. A store error that escapes an action is returned as `Threw(...)`; the filter's 500 response is not modelled.
- BSON mapping beyond the id: `[BsonRequired]` on reading and the serialisation of the other fields belong to the driver's serializer and are not modelled; documents are stored as values.
- ObjectId generation (time, machine and counter based) is a parameter, not a computation.
- The `[EmailAddress]` and `[Url]` grammars belong to the framework; they are the parameters `isEmailAddress` and `isUrl` of `Validation.FormatChecks`.
- Model binding: the controller takes the model state as an input (the list of field errors). In the running service it is `Validation.Errors` plus any JSON binding errors, and `[ApiController]` answers 400 before the action runs; neither step is modelled.
- The `CreatedAtAction` location URL and the JSON bodies of the responses are not modelled; the result keeps the route id and the document.
- Services.UserService.IncrementSeq: `seq` is an unbounded integer; the 64-bit limit of `Counter.Seq` and what the server does at that limit are not modelled.
- DecimalPattern.MatchesIffDecimal: `\d` is read as the ASCII digits 0-9; the .NET pattern also matches the other Unicode decimal digits, which the model refuses.
- Validation.Errors: the report is a list of (field, attribute) pairs in the order the properties are declared; the framework's dictionary from model-state keys to message texts, and its key order, are not modelled.
- Validation.ValidName: lengths count Unicode characters; .NET counts UTF-16 code units, so a character outside the Basic Multilingual Plane counts once here and twice there.
- Validation.ValidUsername: lengths count Unicode characters, not UTF-16 code units (as for the name).
- Validation.CompanyRule: lengths count Unicode characters, not UTF-16 code units (as for the name).
- `Counter`'s C# defaults (`Id = ""`, `Seq = 0`) are not modelled: the model builds a counter only from a stored one.
