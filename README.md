# Alexa request envelope parser — a Dafny model

This project models the envelope parser of a PHP library for voice-assistant skills
(`MaxBeckers\AmazonAlexa\Request\Request`). The parser takes the raw JSON body of an inbound
request and the two signature headers, decodes the body, and picks the request variant class
through the type registry `REQUEST_TYPES`. It then checks that the signature headers are
present when the chosen variant requires them, and returns the assembled envelope. The model
also covers the four null-safe accessors on the envelope.

Modules, one per part of the class:

- `Wrappers` holds `Option` (PHP's `null` is `None`) and `Result` (a thrown exception is `Failure`).
- `JsonValues` holds decoded JSON and `Field`, which gives PHP's `isset($a['key'])` and the read it guards.
  A key holding `null` counts as not set.
- `Variants` holds the fourteen request classes and `VariantClasses`. `VariantClasses` supplies
  each class's `TYPE` constant, its `validateSignature()` policy and its own factory.
- `Registry` holds `REQUEST_TYPES`, modelled as the PHP array literal it is. The fourteen
  `TYPE => class` entries are inserted in source order, and a repeated key overwrites the
  earlier one.
- `ValueObjects` holds the `Session`/`Context` records and the records they nest.
- `Requests` holds the envelope `Request`, `FromAmazonRequest` and the accessors.
- `RequestProperties` holds the lemmas about `fromAmazonRequest`.

The code `fromAmazonRequest` calls but that is not part of this model becomes a parameter
(`Environment`): `json_decode`, `Session::fromAmazonRequest`, `Context::fromAmazonRequest`
and the variant classes. A body that does not decode becomes `JNull`, exactly as
`json_decode` returns `null`. The collaborators are total functions, so every property is
proved for every collaborator behaviour that returns a value, except where a lemma names a
premise about them. `RegistrySize`,
`ResolvesToNamedClass` and `IntentWithoutHeadersIsRejected` assume that the fourteen `TYPE`
constants are pairwise distinct (`DistinctTypes`). `IntentWithoutHeadersIsRejected` also
assumes that `IntentRequest` validates signatures.

`fromAmazonRequest` fills the public fields of a freshly allocated object that nothing else
can see, and throws before returning it when a check fails. It is modelled as a pure function
that returns `Result<Request, Error>`. Because it is a function, equal inputs give equal
envelopes.

Details of the code's behaviour that the model keeps:

- `version` is copied from the decoded body as whatever JSON value it holds; the code does not check that it is a string.
- `session`, `context`, `version` and `request.type` are tested with `isset`, so a key that
  holds `null` is treated as absent.
- A body that is not valid JSON raises no error of its own. `json_decode` yields `null`, every
  `isset` on it is false, and so it fails with `MissingRequestData`.
- A header is rejected when `!$s` holds for it, which in PHP is true for `""` and also for `"0"`.

## Model

| member | source | states |
|---|---|---|
| `JsonValues.Field` | src/Request/Request.php:107-111 | `isset`-guarded read: a value is returned exactly when the body is an object holding the key with a non-null value, and it is that value |
| `Registry.Entries` | src/Request/Request.php:31-51 | the literal has fourteen entries, and each class appears at its source position with its own `TYPE` as key |
| `Registry.Build` | src/Request/Request.php:31-51 | the array a literal denotes, entries inserted left to right with a repeated key overwriting; it never holds more elements than the literal has entries |
| `Registry.RequestTypes` | src/Request/Request.php:31-51 | `self::REQUEST_TYPES`: the `TYPE` of every one of the fourteen classes is a key |
| `Registry.BuildKeys` | src/Request/Request.php:31-51 | the keys of an array literal are exactly the keys written in it |
| `Registry.BuildLastWins` | src/Request/Request.php:31-51 | the value stored under a key is the one written in the last entry with that key |
| `Registry.BuildValueFromEntry` | src/Request/Request.php:31-51 | every stored key/value pair is one of the literal's entries |
| `Registry.BuildSize` | src/Request/Request.php:31-51 | a literal whose keys do not repeat has one element per entry |
| `Registry.RegistryRoundTrip` | src/Request/Request.php:31-51 | for every key of `REQUEST_TYPES`, the class it maps to has that key as its `TYPE` |
| `Registry.RegistryKeys` | src/Request/Request.php:31-51 | a string is a key of `REQUEST_TYPES` exactly when it is the `TYPE` of one of the fourteen classes |
| `Registry.RegistryReachesEveryClass` | src/Request/Request.php:31-51 | every class is reachable through its own `TYPE` if and only if the fourteen `TYPE` constants are pairwise distinct |
| `Registry.RegistrySize` | src/Request/Request.php:31-51 | with distinct `TYPE` constants the registry has exactly fourteen keys |
| `Registry.Resolve` | src/Request/Request.php:111-112 | a lookup succeeds exactly when the string is some class's `TYPE`, and the class it yields has that string as its `TYPE` |
| `Requests.RequestTypeField` | src/Request/Request.php:111 | `$amazonRequest['request']['type']` under `isset`: set exactly when `request` is an object holding a non-null `type`, and then that value |
| `Requests.ResolvedClass` | src/Request/Request.php:111-112 | the dispatch guard selects a class exactly when `request.type` is the string `TYPE` of some class, and the selected class's `TYPE` is that string |
| `Requests.FalsyStrings` | src/Request/Request.php:118 | `!$s` on a header string is true for `""` and `"0"` and false for strings such as `"00"`, `"0.0"`, `" "` and `"false"` |
| `Requests.FromAmazonRequest` | src/Request/Request.php:98-124 | `MissingRequestData` exactly when the registry guard fails; `MissingRequiredHeader` exactly when the guard passes, the selected class validates signatures and a header is falsy; on success the three inputs are kept verbatim and the variant's class is the one the registry selected |
| `RequestProperties.ResolvedClassNamesItsType` | src/Request/Request.php:111-112 | dispatch selects a class exactly when `request.type` equals some class's `TYPE`, and the selected class's `TYPE` equals the incoming `request.type` |
| `RequestProperties.ResolvesToNamedClass` | src/Request/Request.php:111-112 | with distinct `TYPE` constants, a body whose `request.type` is class `c`'s `TYPE` is dispatched to `c` |
| `RequestProperties.MissingRequestDataExactly` | src/Request/Request.php:105-115 | `MissingRequestData` is the outcome exactly when `request` or `request.type` is missing or null, or the type is not a string or not a registry key. This holds whatever the headers are, so this check takes precedence over the header check |
| `RequestProperties.NonObjectBodyIsMissingRequestData` | src/Request/Request.php:105-115 | a body that does not decode to an object (including undecodable text) fails with `MissingRequestData` |
| `RequestProperties.HeaderRequirement` | src/Request/Request.php:117-121 | when the selected class validates signatures, the result is `MissingRequiredHeader` exactly when the cert-chain URL or the signature is `""` or `"0"`, and success exactly when both are truthy |
| `RequestProperties.HeadersIgnoredWithoutSignature` | src/Request/Request.php:117-123 | when the selected class does not validate signatures, parsing succeeds for any headers (empty ones too), and changing them changes only the two verbatim header fields of the envelope |
| `RequestProperties.IntentWithoutHeadersIsRejected` | src/Request/Request.php:111-121 | an `IntentRequest` body with empty headers fails with `MissingRequiredHeader` when that class validates signatures |
| `RequestProperties.SuccessShape` | src/Request/Request.php:100-123 | on success: the three inputs are kept verbatim; `version`, `session` and `context` are set exactly when the top-level key is set, from its raw value; the variant's class has `request.type` as its `TYPE` and was built from the `request` subtree; both headers are truthy when that class validates signatures |
| `RequestProperties.AccessorsOnMissingParts` | src/Request/Request.php:129-158 | on an envelope parsed without `context`, application id, user and device are null; without `session`, every attribute lookup yields the default |
| `Requests.GetApplicationId` | src/Request/Request.php:129-132 | null when any link of `context.system.application.applicationId` is null, otherwise the application id |
| `Requests.GetUser` | src/Request/Request.php:137-140 | null when any link of `context.system.user` is null, otherwise the user |
| `Requests.GetDevice` | src/Request/Request.php:145-148 | null when any link of `context.system.device` is null, otherwise the device |
| `Requests.GetSessionAttribute` | src/Request/Request.php:155-158 | the stored attribute when session, attributes and a non-null value under the key all exist, otherwise the default (null when none is given) |

## Left out

- JSON text parsing: `json_decode` is the parameter `Environment.jsonDecode`. JSON numbers are kept as their lexeme, since floating point is not modelled.
- `Session`, `Context`, `User`, `Device` and `Application` parsers: their source is not part of this model. They are parameters. The records keep the fields the accessors read, plus a few identifying fields (`Session.isNew`, `sessionId`, `application`, `user`, and `Context.audioPlayer`) that no accessor reads.
- Per-variant classes: their `TYPE` literals, their `fromAmazonRequest` factories and their `validateSignature()` policies are parameters. The variant's fields are kept as the string-keyed JSON map its factory reads.
- `validateSignature()` is modelled as a fixed property of each class. A variant whose answer depends on its own field values is not modelled.
- A non-string `request.type` is treated as not a registry key. PHP converts an integer or boolean offset to an integer key, and an array offset is an error; neither is modelled.
- Cryptographic signature verification: the source only checks that the two headers are truthy, and so does the model.
- The HTTP layer (extracting headers, transport, mapping errors to responses) is not part of this model.
- FromAmazonRequest: the `Session` and `Context` parsers and the variant factories never throw in the model. That is because the model's collaborators are total functions, and their exceptions are not part of this model. In the source, an exception from `Session::fromAmazonRequest` or `Context::fromAmazonRequest` (src/Request/Request.php:108-109) would escape before the registry check could raise `MissingRequestData`. An exception from the variant's own `fromAmazonRequest` (src/Request/Request.php:112) would escape before the header check could raise `MissingRequiredHeader`. `MissingRequestDataExactly` and `HeaderRequirement` are therefore stated only for collaborators that return.
- Object identity: the envelope is a value, not a heap object. Nothing else can observe the freshly created PHP object before it is returned, so no behaviour is lost.
