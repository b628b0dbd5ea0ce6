# nGrinder `GitHubConfig` deserializer, modelled in Dafny

nGrinder can load test scripts from a GitHub repository. The connection is
described in a `.gitconfig.yml` document. `GitHubConfig.GitHubConfigDeserializer`
turns the parsed document into a `GitHubConfig` record with eight string fields,
or throws `InvalidGitHubConfigurationException`. This project models that
deserializer as pure Dafny functions and proves lemmas about it.

- `wrappers.dfy`, module `Wrappers`: `Option` (Java's `null` for a missing field)
  and `Result` (a value or an error kind, instead of the thrown exception).
- `github_config.dfy`, module `GitHubConfigDeserializer`:
  - the parsed document is a `Document = map<string, Node>`;
  - `Node = NullNode | TextNode(text)` is a scalar node: an explicit null, or a
    value rendered as text;
  - the record `GitHubConfig`;
  - the error kinds `ConfigError = InvalidBaseUrl | MissingRequiredFields`;
  - `DefaultIfNull` (the private helper `defaultIfNull`);
  - `Deserialize` (the method `deserialize`);
  - `ToDocument`, the canonical document of a configuration, which serves as
    the inverse of `Deserialize` in the round-trip lemmas.

`Deserialize` works in this order:

1. It reads `base-url`, defaulting to `""`. If that text is non-empty and the
   URL validator refuses it, the result is `InvalidBaseUrl`.
2. If any of `name`, `owner`, `repo` or `access-token` is absent, the result is
   `MissingRequiredFields`. In the source this is a null dereference that the
   surrounding `catch` turns into this error.
3. Otherwise it builds the record. The optional fields get their defaults:
   `branch` → `""`, `revision` → `"-1"`, `script-root` → `""`.

Two collaborators the source calls are parameters of `Deserialize`:

- `isValidUrl: string -> bool` stands for Apache Commons' default `UrlValidator`.
- `nullText: string` stands for what Jackson's `asText()` returns for an
  explicit null in a required field.

The deserializer has no allow-list check: it looks up eight fixed keys and
ignores every other key (`IgnoresUnrelatedKey`, `RestrictToReadKeys`,
`UnknownKeyScenario`).

## Model

| member | source | states |
|---|---|---|
| `GitHubConfigDeserializer.DefaultIfNull` | ngrinder-controller/src/main/java/org/ngrinder/script/model/GitHubConfig.java:65-67 | a result that differs from the default is exactly the text of a present text node; a present text node's text is returned unchanged |
| `GitHubConfigDeserializer.Deserialize` | ngrinder-controller/src/main/java/org/ngrinder/script/model/GitHubConfig.java:37-63 | succeeds exactly when the base URL is empty or valid and all four required keys are present; every successful result's base URL is empty or valid |
| `GitHubConfigDeserializer.ToDocument` | ngrinder-controller/src/main/java/org/ngrinder/script/model/GitHubConfig.java:49-58 | no counterpart in the source: the inverse of the builder chain, used by the round-trip lemmas; the document it writes holds exactly the eight keys the deserializer reads |
| `GitHubConfigDeserializer.InvalidBaseUrlRejected` | ngrinder-controller/src/main/java/org/ngrinder/script/model/GitHubConfig.java:43-46 | a non-empty `base-url` text the validator refuses gives `InvalidBaseUrl`, even when required keys are absent too (the base-URL check comes first) |
| `GitHubConfigDeserializer.InvalidBaseUrlOnlyFromBaseUrl` | ngrinder-controller/src/main/java/org/ngrinder/script/model/GitHubConfig.java:43-46 | `InvalidBaseUrl` occurs only when `base-url` is present as a non-empty text that the validator refuses |
| `GitHubConfigDeserializer.MissingRequiredRejected` | ngrinder-controller/src/main/java/org/ngrinder/script/model/GitHubConfig.java:48-62 | if the base URL passes, one absent required key gives `MissingRequiredFields` |
| `GitHubConfigDeserializer.MissingRequiredOnlyFromAbsentKey` | ngrinder-controller/src/main/java/org/ngrinder/script/model/GitHubConfig.java:48-62 | `MissingRequiredFields` occurs only when the base URL passed and some required key is absent |
| `GitHubConfigDeserializer.RequiredFieldsCopied` | ngrinder-controller/src/main/java/org/ngrinder/script/model/GitHubConfig.java:49-58 | all four required keys present and the base URL accepted: success; a required field given as text is copied into `name`, `owner`, `repo` or `accessToken` unchanged, and an explicit null becomes `nullText` |
| `GitHubConfigDeserializer.OptionalDefaults` | ngrinder-controller/src/main/java/org/ngrinder/script/model/GitHubConfig.java:43-57 | in a successful result, an absent or null optional field takes its default: `branch` `""`, `baseUrl` `""`, `revision` `"-1"`, `scriptRoot` `""` |
| `GitHubConfigDeserializer.OptionalTextCopied` | ngrinder-controller/src/main/java/org/ngrinder/script/model/GitHubConfig.java:43-57 | in a successful result, an optional field given as text is copied unchanged |
| `GitHubConfigDeserializer.OnlyReadKeysMatter` | ngrinder-controller/src/main/java/org/ngrinder/script/model/GitHubConfig.java:43-57 | two documents that agree on the eight keys read give the same result |
| `GitHubConfigDeserializer.IgnoresUnrelatedKey` | ngrinder-controller/src/main/java/org/ngrinder/script/model/GitHubConfig.java:43-57 | adding or overwriting any key outside the eight read keys does not change the result |
| `GitHubConfigDeserializer.RestrictToReadKeys` | ngrinder-controller/src/main/java/org/ngrinder/script/model/GitHubConfig.java:43-57 | dropping every key outside the eight read keys does not change the result |
| `GitHubConfigDeserializer.RoundTrip` | ngrinder-controller/src/main/java/org/ngrinder/script/model/GitHubConfig.java:49-58 | a configuration whose base URL is empty or valid is read back unchanged from its canonical document |
| `GitHubConfigDeserializer.CanonicalDocument` | ngrinder-controller/src/main/java/org/ngrinder/script/model/GitHubConfig.java:49-58 | reading the canonical document of a successful result gives the same result |
| `GitHubConfigDeserializer.ProducibleIffWellFormed` | ngrinder-controller/src/main/java/org/ngrinder/script/model/GitHubConfig.java:43-58 | a configuration is produced from some document exactly when its base URL is empty or valid |
| `GitHubConfigDeserializer.RequiredOnlyScenario` | ngrinder-controller/src/main/java/org/ngrinder/script/model/GitHubConfig.java:49-58 | a document with only the four required keys succeeds, with all optional fields at their defaults |
| `GitHubConfigDeserializer.UnknownKeyScenario` | ngrinder-controller/src/main/java/org/ngrinder/script/model/GitHubConfig.java:43-58 | an unknown key (`foo`) next to the required keys is accepted and ignored, not rejected |

## Left out

- Jackson plumbing (`JsonParser`, `ObjectCodec.readTree`, `DeserializationContext`, lines 38-40): the model starts from the parsed root object.
- A null root (what the parser may return for an empty document): line 43 then throws a `NullPointerException` outside the `try`, which the model does not represent. A list or scalar root needs no separate case: its `get` returns null for every key, so it behaves like the empty map, which gives `MissingRequiredFields`.
- Container values (nested objects or lists) in a field: `Node` covers only null and scalar nodes, which is what the configuration format uses.
- The internals of Apache Commons `UrlValidator` (lines 41, 44): it is a foreign library, so it is the parameter `isValidUrl`.
- Jackson's text for an explicit null in a required field: the source file does not show it, so it is the parameter `nullText`.
- Lombok's getters, setters, builder and `toString` (lines 20-23): the builder chain is plain record construction.
- The exception class and its message texts (lines 45, 60-61): only the error kind is modelled.
- The broad `catch (RuntimeException e)` (line 59): the only runtime exception its body can raise is the null dereference on an absent required key, and that is what `MissingRequiredFields` models.
- Idempotence (two calls on one document give equal results): this holds for every Dafny function, so it gets no lemma.
