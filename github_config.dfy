/**
  The deserializer that turns a parsed `.gitconfig.yml` document into a
  `GitHubConfig`: the base URL is checked first, then the four required keys
  are read, then the three optional keys are read with their defaults.
  Any key other than the eight it reads is ignored.
 */
module GitHubConfigDeserializer {
  import opened Wrappers

  /** A scalar node of the parsed document tree: an explicit null, or a scalar rendered as text. */
  datatype Node = NullNode | TextNode(text: string)

  /** The root object of the parsed document: field name to node. */
  type Document = map<string, Node>

  /** The connection to a GitHub repository that nGrinder reads scripts from. */
  datatype GitHubConfig = GitHubConfig(
    name: string,
    owner: string,
    repo: string,
    accessToken: string,
    branch: string,
    baseUrl: string,
    revision: string,
    scriptRoot: string)

  /** The two kinds of `InvalidGitHubConfigurationException` the deserializer throws. */
  datatype ConfigError = InvalidBaseUrl | MissingRequiredFields

  // Field names as they are spelled in the document.
  const NameKey := "name"
  const OwnerKey := "owner"
  const RepoKey := "repo"
  const AccessTokenKey := "access-token"
  const BranchKey := "branch"
  const BaseUrlKey := "base-url"
  const RevisionKey := "revision"
  const ScriptRootKey := "script-root"

  // Defaults for the optional fields.
  const DefaultBranch := ""
  const DefaultBaseUrl := ""
  const DefaultRevision := "-1"
  const DefaultScriptRoot := ""

  const RequiredKeys: set<string> := {NameKey, OwnerKey, RepoKey, AccessTokenKey}
  const OptionalKeys: set<string> := {BranchKey, BaseUrlKey, RevisionKey, ScriptRootKey}

  /** The eight keys the deserializer reads; every other key of a document is ignored. */
  const ReadKeys: set<string> := RequiredKeys + OptionalKeys

  /** `jsonNode.get(key)`: the child node, or `null` when the document has no such field. */
  function Get(doc: Document, key: string): Option<Node>
  {
    if key in doc then Some(doc[key]) else None
  }

  /**
    `asText()` on a present node: the text of a scalar, and `nullText` (Jackson's
    rendering of an explicit null) for a null node.
   */
  function AsText(node: Node, nullText: string): string
  {
    match node
    case TextNode(s) => s
    case NullNode => nullText
  }

  /**
    `defaultIfNull`: the default when the field is absent or explicitly null,
    the field's text otherwise.
   */
  function DefaultIfNull(node: Option<Node>, default: string): (r: string)
    ensures r != default ==> node == Some(TextNode(r))
    ensures node.Some? && node.value.TextNode? ==> r == node.value.text
  {
    match node
    case None => default
    case Some(NullNode) => default
    case Some(TextNode(s)) => s
  }

  /** The base URL the deserializer reads: `base-url` with default `""`. */
  function BaseUrlOf(doc: Document): string
  {
    DefaultIfNull(Get(doc, BaseUrlKey), DefaultBaseUrl)
  }

  /** A base URL the deserializer lets through: empty, or valid for the URL validator. */
  predicate AcceptedBaseUrl(url: string, isValidUrl: string -> bool)
  {
    url == "" || isValidUrl(url)
  }

  /** What every successfully deserialized configuration satisfies. */
  predicate WellFormed(cfg: GitHubConfig, isValidUrl: string -> bool)
  {
    AcceptedBaseUrl(cfg.baseUrl, isValidUrl)
  }

  /**
    `GitHubConfigDeserializer.deserialize`. `isValidUrl` stands for Apache
    Commons' default `UrlValidator`; `nullText` for the text Jackson gives an
    explicit null in a required field.
   */
  function Deserialize(doc: Document, isValidUrl: string -> bool, nullText: string): (r: Result<GitHubConfig, ConfigError>)
    ensures r.Ok? <==> AcceptedBaseUrl(BaseUrlOf(doc), isValidUrl) && RequiredKeys <= doc.Keys
    ensures r.Ok? ==> WellFormed(r.value, isValidUrl)
  {
    var baseUrl := BaseUrlOf(doc);
    if baseUrl != "" && !isValidUrl(baseUrl) then
      Err(InvalidBaseUrl)
    else if NameKey !in doc || OwnerKey !in doc || RepoKey !in doc || AccessTokenKey !in doc then
      // The null dereference on an absent required field, caught and rethrown.
      Err(MissingRequiredFields)
    else
      Ok(GitHubConfig(
        name := AsText(doc[NameKey], nullText),
        owner := AsText(doc[OwnerKey], nullText),
        repo := AsText(doc[RepoKey], nullText),
        accessToken := AsText(doc[AccessTokenKey], nullText),
        branch := DefaultIfNull(Get(doc, BranchKey), DefaultBranch),
        baseUrl := baseUrl,
        revision := DefaultIfNull(Get(doc, RevisionKey), DefaultRevision),
        scriptRoot := DefaultIfNull(Get(doc, ScriptRootKey), DefaultScriptRoot)))
  }

  /** The canonical document of a configuration: all eight fields as text nodes. */
  function ToDocument(cfg: GitHubConfig): (doc: Document)
    ensures doc.Keys == ReadKeys
  {
    map[
      NameKey := TextNode(cfg.name),
      OwnerKey := TextNode(cfg.owner),
      RepoKey := TextNode(cfg.repo),
      AccessTokenKey := TextNode(cfg.accessToken),
      BranchKey := TextNode(cfg.branch),
      BaseUrlKey := TextNode(cfg.baseUrl),
      RevisionKey := TextNode(cfg.revision),
      ScriptRootKey := TextNode(cfg.scriptRoot)]
  }

  /** Two documents that agree on every key the deserializer reads. */
  predicate AgreeOnReadKeys(d1: Document, d2: Document)
  {
    forall k :: k in ReadKeys ==> Get(d1, k) == Get(d2, k)
  }

  /** A non-empty base URL the validator refuses is reported, whatever else the document holds. */
  lemma InvalidBaseUrlRejected(doc: Document, isValidUrl: string -> bool, nullText: string, url: string)
    requires BaseUrlKey in doc && doc[BaseUrlKey] == TextNode(url)
    requires url != "" && !isValidUrl(url)
    ensures Deserialize(doc, isValidUrl, nullText) == Err(InvalidBaseUrl)
  {
  }

  /** The only way to get `InvalidBaseUrl` is a non-empty `base-url` text the validator refuses. */
  lemma InvalidBaseUrlOnlyFromBaseUrl(doc: Document, isValidUrl: string -> bool, nullText: string)
    requires Deserialize(doc, isValidUrl, nullText) == Err(InvalidBaseUrl)
    ensures BaseUrlKey in doc && doc[BaseUrlKey].TextNode?
    ensures doc[BaseUrlKey].text != "" && !isValidUrl(doc[BaseUrlKey].text)
  {
  }

  /** With the base URL let through, an absent required key is reported as missing required fields. */
  lemma MissingRequiredRejected(doc: Document, isValidUrl: string -> bool, nullText: string, key: string)
    requires key in RequiredKeys && key !in doc
    requires AcceptedBaseUrl(BaseUrlOf(doc), isValidUrl)
    ensures Deserialize(doc, isValidUrl, nullText) == Err(MissingRequiredFields)
  {
  }

  /** `MissingRequiredFields` means the base URL passed and some required key is absent. */
  lemma MissingRequiredOnlyFromAbsentKey(doc: Document, isValidUrl: string -> bool, nullText: string)
    requires Deserialize(doc, isValidUrl, nullText) == Err(MissingRequiredFields)
    ensures AcceptedBaseUrl(BaseUrlOf(doc), isValidUrl)
    ensures exists k :: k in RequiredKeys && k !in doc
  {
  }

  /** All four required keys present and the base URL let through: success; a required field given as text is copied, an explicit null becomes `nullText`. */
  lemma RequiredFieldsCopied(doc: Document, isValidUrl: string -> bool, nullText: string)
    requires RequiredKeys <= doc.Keys
    requires AcceptedBaseUrl(BaseUrlOf(doc), isValidUrl)
    ensures var r := Deserialize(doc, isValidUrl, nullText);
      && r.Ok?
      && (doc[NameKey].TextNode? ==> r.value.name == doc[NameKey].text)
      && (doc[OwnerKey].TextNode? ==> r.value.owner == doc[OwnerKey].text)
      && (doc[RepoKey].TextNode? ==> r.value.repo == doc[RepoKey].text)
      && (doc[AccessTokenKey].TextNode? ==> r.value.accessToken == doc[AccessTokenKey].text)
      && (doc[NameKey] == NullNode ==> r.value.name == nullText)
      && (doc[OwnerKey] == NullNode ==> r.value.owner == nullText)
      && (doc[RepoKey] == NullNode ==> r.value.repo == nullText)
      && (doc[AccessTokenKey] == NullNode ==> r.value.accessToken == nullText)
  {
  }

  /** In a successful result, an optional field that is absent or null takes its default. */
  lemma OptionalDefaults(doc: Document, isValidUrl: string -> bool, nullText: string)
    requires Deserialize(doc, isValidUrl, nullText).Ok?
    ensures var cfg := Deserialize(doc, isValidUrl, nullText).value;
      && (BranchKey !in doc || doc[BranchKey] == NullNode ==> cfg.branch == "")
      && (BaseUrlKey !in doc || doc[BaseUrlKey] == NullNode ==> cfg.baseUrl == "")
      && (RevisionKey !in doc || doc[RevisionKey] == NullNode ==> cfg.revision == "-1")
      && (ScriptRootKey !in doc || doc[ScriptRootKey] == NullNode ==> cfg.scriptRoot == "")
  {
  }

  /** In a successful result, an optional field given as text is copied unchanged. */
  lemma OptionalTextCopied(doc: Document, isValidUrl: string -> bool, nullText: string)
    requires Deserialize(doc, isValidUrl, nullText).Ok?
    ensures var cfg := Deserialize(doc, isValidUrl, nullText).value;
      && (BranchKey in doc && doc[BranchKey].TextNode? ==> cfg.branch == doc[BranchKey].text)
      && (BaseUrlKey in doc && doc[BaseUrlKey].TextNode? ==> cfg.baseUrl == doc[BaseUrlKey].text)
      && (RevisionKey in doc && doc[RevisionKey].TextNode? ==> cfg.revision == doc[RevisionKey].text)
      && (ScriptRootKey in doc && doc[ScriptRootKey].TextNode? ==> cfg.scriptRoot == doc[ScriptRootKey].text)
  {
  }

  /** The result depends only on the eight keys read: documents that agree on them give the same result. */
  lemma OnlyReadKeysMatter(d1: Document, d2: Document, isValidUrl: string -> bool, nullText: string)
    requires AgreeOnReadKeys(d1, d2)
    ensures Deserialize(d1, isValidUrl, nullText) == Deserialize(d2, isValidUrl, nullText)
  {
  }

  /** Adding or overwriting a field outside the eight read keys leaves the result unchanged. */
  lemma IgnoresUnrelatedKey(doc: Document, key: string, node: Node, isValidUrl: string -> bool, nullText: string)
    requires key !in ReadKeys
    ensures Deserialize(doc[key := node], isValidUrl, nullText) == Deserialize(doc, isValidUrl, nullText)
  {
  }

  /** Restricting a document to the eight read keys leaves the result unchanged. */
  lemma RestrictToReadKeys(doc: Document, isValidUrl: string -> bool, nullText: string)
    ensures Deserialize(map k | k in doc && k in ReadKeys :: doc[k], isValidUrl, nullText)
         == Deserialize(doc, isValidUrl, nullText)
  {
  }

  /** A well-formed configuration survives being written as its canonical document and read back. */
  lemma RoundTrip(cfg: GitHubConfig, isValidUrl: string -> bool, nullText: string)
    requires WellFormed(cfg, isValidUrl)
    ensures Deserialize(ToDocument(cfg), isValidUrl, nullText) == Ok(cfg)
  {
  }

  /** Reading the canonical document of a result gives the same result back. */
  lemma CanonicalDocument(doc: Document, isValidUrl: string -> bool, nullText: string)
    requires Deserialize(doc, isValidUrl, nullText).Ok?
    ensures var r := Deserialize(doc, isValidUrl, nullText);
      Deserialize(ToDocument(r.value), isValidUrl, nullText) == r
  {
  }

  /** The configurations the deserializer can produce are exactly the well-formed ones. */
  lemma ProducibleIffWellFormed(cfg: GitHubConfig, isValidUrl: string -> bool, nullText: string)
    ensures WellFormed(cfg, isValidUrl) <==> exists doc :: Deserialize(doc, isValidUrl, nullText) == Ok(cfg)
  {
    if WellFormed(cfg, isValidUrl) {
      RoundTrip(cfg, isValidUrl, nullText);
    }
  }

  /** The smallest accepted document: the four required keys only; every optional field takes its default. */
  lemma RequiredOnlyScenario(isValidUrl: string -> bool, nullText: string)
    ensures var doc := map[NameKey := TextNode("proj"), OwnerKey := TextNode("acme"),
                           RepoKey := TextNode("app"), AccessTokenKey := TextNode("tok123")];
      Deserialize(doc, isValidUrl, nullText)
        == Ok(GitHubConfig("proj", "acme", "app", "tok123", "", "", "-1", ""))
  {
  }

  /** An unknown key next to the required ones is not rejected: the document is accepted as if it were absent. */
  lemma UnknownKeyScenario(isValidUrl: string -> bool, nullText: string)
    ensures var doc := map[NameKey := TextNode("proj"), OwnerKey := TextNode("acme"),
                           RepoKey := TextNode("app"), AccessTokenKey := TextNode("tok123"),
                           "foo" := TextNode("bar")];
      Deserialize(doc, isValidUrl, nullText)
        == Ok(GitHubConfig("proj", "acme", "app", "tok123", "", "", "-1", ""))
  {
  }
}
