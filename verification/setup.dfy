/**
 * What `init` prepares before `main` runs, sample.go:275-319 and 391-431:
 * the four authentication settings read from the environment, their
 * validation (`validateParameters`, which also rewrites each identifier
 * into its canonical form) and the outcome of authenticating.
 *
 * The GUID parser (`guid.Parse` followed by `Stringf(guid.FormatD)`) and
 * the two authentication calls are not part of this model: they are given
 * as parameters, `parse` yielding the canonical text of a valid identifier
 * and `authenticate` the errors of the two calls.
 */
module Setup {
  import opened Wrappers

  const TenantIDVar := "AZURE_TENANT_ID"
  const SubscriptionIDVar := "AZURE_SUBSCRIPTION_ID"
  const ClientIDVar := "AZURE_CLIENT_ID"
  const ClientSecretVar := "AZURE_CLIENT_SECRET"

  /** The four settings, in the order `validateParameters` checks them. */
  datatype Field = TenantID | SubscriptionID | ClientID | ClientSecret

  function FieldIndex(f: Field): nat {
    match f
    case TenantID => 0
    case SubscriptionID => 1
    case ClientID => 2
    case ClientSecret => 3
  }

  /** The environment variable each setting is read from. */
  function EnvVarName(f: Field): string {
    match f
    case TenantID => TenantIDVar
    case SubscriptionID => SubscriptionIDVar
    case ClientID => ClientIDVar
    case ClientSecret => ClientSecretVar
  }

  /** The name of each setting in the message for a missing value. */
  function PrettyName(f: Field): string {
    match f
    case TenantID => "Azure Tenant ID"
    case SubscriptionID => "Azure Subscription ID"
    case ClientID => "Azure Client ID"
    case ClientSecret => "Azure Client Secret"
  }

  /** Only the three identifiers must be GUIDs; the secret is any non-empty text. */
  predicate IsIdentifier(f: Field) {
    f != ClientSecret
  }

  datatype Credentials = Credentials(tenantID: string, subscriptionID: string, clientID: string, clientSecret: string)

  function Value(c: Credentials, f: Field): string {
    match f
    case TenantID => c.tenantID
    case SubscriptionID => c.subscriptionID
    case ClientID => c.clientID
    case ClientSecret => c.clientSecret
  }

  /** One complaint of `validateParameters`. */
  datatype ValidationError = Missing(field: Field) | NotUuid(field: Field)

  /** `newMissingAzureAuthError(pretty, envVarName)`, spelling as in the program. */
  function MissingAzureAuthMessage(pretty: string, envVarName: string): string {
    "No value was provieded to act as the " + pretty + ". Set enviroment variable \"" + envVarName + "\""
  }

  /** The text of `uuidErrTemplate` for one variable. */
  function UuidMessage(envVarName: string): string {
    "argument '" + envVarName + "' was not of type Uuid as expected"
  }

  function Message(e: ValidationError): string {
    match e
    case Missing(f) => MissingAzureAuthMessage(PrettyName(f), EnvVarName(f))
    case NotUuid(f) => UuidMessage(EnvVarName(f))
  }

  /** What `validateParameters` finds wrong with one setting: nothing, or one error. */
  function FieldErrors(value: string, f: Field, parse: string -> Option<string>): seq<ValidationError> {
    if value == "" then [Missing(f)]
    else if IsIdentifier(f) && parse(value).None? then [NotUuid(f)]
    else []
  }

  /** Every complaint, setting by setting in the order they are checked. */
  function ValidationErrors(c: Credentials, parse: string -> Option<string>): seq<ValidationError> {
    FieldErrors(c.tenantID, TenantID, parse)
    + FieldErrors(c.subscriptionID, SubscriptionID, parse)
    + FieldErrors(c.clientID, ClientID, parse)
    + FieldErrors(c.clientSecret, ClientSecret, parse)
  }

  /** A setting after validation: a valid identifier in its canonical form, anything else as it was. */
  function NormalisedValue(value: string, f: Field, parse: string -> Option<string>): string {
    if value != "" && IsIdentifier(f) && parse(value).Some? then parse(value).value else value
  }

  function Normalised(c: Credentials, parse: string -> Option<string>): Credentials {
    Credentials(
      NormalisedValue(c.tenantID, TenantID, parse),
      NormalisedValue(c.subscriptionID, SubscriptionID, parse),
      NormalisedValue(c.clientID, ClientID, parse),
      c.clientSecret)
  }

  /** A setting `validateParameters` accepts. */
  predicate Acceptable(value: string, f: Field, parse: string -> Option<string>) {
    value != "" && (IsIdentifier(f) ==> parse(value).Some?)
  }

  /** The errors, one field at a time: each field contributes an error exactly when it is not acceptable, and which one. */
  lemma FieldErrorsCharacterised(value: string, f: Field, parse: string -> Option<string>)
    ensures |FieldErrors(value, f, parse)| <= 1
    ensures FieldErrors(value, f, parse) == [] <==> Acceptable(value, f, parse)
    ensures forall e | e in FieldErrors(value, f, parse) :: e.field == f
    ensures Missing(f) in FieldErrors(value, f, parse) <==> value == ""
    ensures NotUuid(f) in FieldErrors(value, f, parse) <==> value != "" && IsIdentifier(f) && parse(value).None?
  {
  }

  /** An error is reported exactly when the check of its own setting reports it. */
  lemma ErrorOfItsField(c: Credentials, parse: string -> Option<string>, e: ValidationError)
    ensures e in ValidationErrors(c, parse) <==> e in FieldErrors(Value(c, e.field), e.field, parse)
  {
    FieldErrorsCharacterised(c.tenantID, TenantID, parse);
    FieldErrorsCharacterised(c.subscriptionID, SubscriptionID, parse);
    FieldErrorsCharacterised(c.clientID, ClientID, parse);
    FieldErrorsCharacterised(c.clientSecret, ClientSecret, parse);
    match e.field
    case TenantID =>
    case SubscriptionID =>
    case ClientID =>
    case ClientSecret =>
  }

  /** The errors come in the order the settings are checked, at most one per setting. */
  lemma ErrorsInFieldOrder(c: Credentials, parse: string -> Option<string>)
    ensures var errs := ValidationErrors(c, parse);
      forall i, j :: 0 <= i < j < |errs| ==> FieldIndex(errs[i].field) < FieldIndex(errs[j].field)
  {
    var t := FieldErrors(c.tenantID, TenantID, parse);
    var s := FieldErrors(c.subscriptionID, SubscriptionID, parse);
    var l := FieldErrors(c.clientID, ClientID, parse);
    var x := FieldErrors(c.clientSecret, ClientSecret, parse);
    FieldErrorsCharacterised(c.tenantID, TenantID, parse);
    FieldErrorsCharacterised(c.subscriptionID, SubscriptionID, parse);
    FieldErrorsCharacterised(c.clientID, ClientID, parse);
    FieldErrorsCharacterised(c.clientSecret, ClientSecret, parse);
    var errs := t + s + l + x;
    forall i | 0 <= i < |errs|
      ensures FieldIndex(errs[i].field) == if i < |t| then 0 else if i < |t + s| then 1 else if i < |t + s + l| then 2 else 3
    {
      if i < |t| {
        assert errs[i] == t[i] && t[i] in t;
      } else if i < |t + s| {
        assert errs[i] == s[i - |t|] && s[i - |t|] in s;
      } else if i < |t + s + l| {
        assert errs[i] == l[i - |t + s|] && l[i - |t + s|] in l;
      } else {
        assert errs[i] == x[i - |t + s + l|] && x[i - |t + s + l|] in x;
      }
    }
  }

  /**
   * `validateParameters` reports, for every setting, that it is missing
   * exactly when it is empty and that it is not a GUID exactly when it is a
   * non-empty identifier the parser rejects; at most one error per setting,
   * in the order tenant, subscription, client, secret; and no error at all
   * exactly when every setting is acceptable.
   */
  lemma ValidationErrorsCharacterised(c: Credentials, parse: string -> Option<string>)
    ensures var errs := ValidationErrors(c, parse);
      && |errs| <= 4
      && (forall f :: Missing(f) in errs <==> Value(c, f) == "")
      && (forall f :: NotUuid(f) in errs <==> Value(c, f) != "" && IsIdentifier(f) && parse(Value(c, f)).None?)
      && (forall i, j :: 0 <= i < j < |errs| ==> FieldIndex(errs[i].field) < FieldIndex(errs[j].field))
      && (errs == [] <==> forall f :: Acceptable(Value(c, f), f, parse))
  {
    var errs := ValidationErrors(c, parse);
    FieldErrorsCharacterised(c.tenantID, TenantID, parse);
    FieldErrorsCharacterised(c.subscriptionID, SubscriptionID, parse);
    FieldErrorsCharacterised(c.clientID, ClientID, parse);
    FieldErrorsCharacterised(c.clientSecret, ClientSecret, parse);
    forall f
      ensures Missing(f) in errs <==> Value(c, f) == ""
      ensures NotUuid(f) in errs <==> Value(c, f) != "" && IsIdentifier(f) && parse(Value(c, f)).None?
    {
      ErrorOfItsField(c, parse, Missing(f));
      ErrorOfItsField(c, parse, NotUuid(f));
      FieldErrorsCharacterised(Value(c, f), f, parse);
    }
    ErrorsInFieldOrder(c, parse);
    if forall f :: Acceptable(Value(c, f), f, parse) {
      assert Acceptable(c.tenantID, TenantID, parse) && Acceptable(c.subscriptionID, SubscriptionID, parse);
      assert Acceptable(c.clientID, ClientID, parse) && Acceptable(c.clientSecret, ClientSecret, parse);
    }
  }

  /**
   * After validation every identifier the parser accepts is replaced by its
   * canonical form, every other setting keeps its value, and the secret is
   * never touched.
   */
  lemma NormalisedCharacterised(c: Credentials, parse: string -> Option<string>)
    ensures forall f :: Value(Normalised(c, parse), f) == (if IsIdentifier(f) && Acceptable(Value(c, f), f, parse) then parse(Value(c, f)).value else Value(c, f))
    ensures Normalised(c, parse).clientSecret == c.clientSecret
  {
    forall f
      ensures Value(Normalised(c, parse), f) ==
        (if IsIdentifier(f) && Acceptable(Value(c, f), f, parse) then parse(Value(c, f)).value else Value(c, f))
    {
      match f
      case TenantID =>
      case SubscriptionID =>
      case ClientID =>
      case ClientSecret =>
    }
  }

  /**
   * A parser whose canonical text is non-empty and parses to itself, as the
   * canonical hyphenated form of a GUID does.
   */
  ghost predicate Canonicalising(parse: string -> Option<string>) {
    forall s :: parse(s).Some? ==> parse(s).value != "" && parse(parse(s).value) == parse(s)
  }

  /**
   * Validating the settings a second time finds the same errors and changes
   * nothing further: the rewriting into canonical form is idempotent.
   */
  lemma RevalidationIsStable(c: Credentials, parse: string -> Option<string>)
    requires Canonicalising(parse)
    ensures ValidationErrors(Normalised(c, parse), parse) == ValidationErrors(c, parse)
    ensures Normalised(Normalised(c, parse), parse) == Normalised(c, parse)
  {
    var n := Normalised(c, parse);
    forall f | IsIdentifier(f)
      ensures FieldErrors(Value(n, f), f, parse) == FieldErrors(Value(c, f), f, parse)
      ensures NormalisedValue(Value(n, f), f, parse) == Value(n, f)
    {
      NormalisedCharacterised(c, parse);
    }
    assert FieldErrors(n.tenantID, TenantID, parse) == FieldErrors(c.tenantID, TenantID, parse);
    assert FieldErrors(n.subscriptionID, SubscriptionID, parse) == FieldErrors(c.subscriptionID, SubscriptionID, parse);
    assert FieldErrors(n.clientID, ClientID, parse) == FieldErrors(c.clientID, ClientID, parse);
    assert NormalisedValue(n.tenantID, TenantID, parse) == n.tenantID;
    assert NormalisedValue(n.subscriptionID, SubscriptionID, parse) == n.subscriptionID;
    assert NormalisedValue(n.clientID, ClientID, parse) == n.clientID;
  }

  /** Every message names the environment variable to set, between the quotes or apostrophes the program writes. */
  lemma MessageNamesVariable(e: ValidationError)
    ensures var m := Message(e); var v := EnvVarName(e.field);
      && (e.Missing? ==> |m| >= |v| + 2 && m[|m| - |v| - 2..] == "\"" + v + "\"")
      && (e.NotUuid? ==> "argument '" + v + "'" <= m)
  {
    var m, v := Message(e), EnvVarName(e.field);
    if e.Missing? {
      var head := "No value was provieded to act as the " + PrettyName(e.field) + ". Set enviroment variable ";
      assert m == head + ("\"" + v + "\"");
    } else {
      assert m == ("argument '" + v + "'") + " was not of type Uuid as expected";
    }
  }

  /** The outcome of `adal.NewOAuthConfig` and `adal.NewServicePrincipalToken`: their errors. */
  datatype Authentication = Authentication(configErr: Option<string>, tokenErr: Option<string>)

  /** Whether `init` leaves a token behind, given the settings read from the environment. */
  predicate TokenObtained(help: bool, read: Credentials, parse: string -> Option<string>, authenticate: Credentials -> Authentication) {
    && !help
    && ValidationErrors(read, parse) == []
    && authenticate(Normalised(read, parse)).configErr.None?
    && authenticate(Normalised(read, parse)).tokenErr.None?
  }

  /** What `init` writes to standard error: one line per invalid setting, or the error of an authentication call. */
  datatype Diagnostic = InvalidArgument(error: ValidationError) | AuthenticationError(message: string)

  /** The text of one diagnostic. */
  function Render(d: Diagnostic): string {
    match d
    case InvalidArgument(e) => "Invalid argument. Details: " + Message(e) + "\n"
    case AuthenticationError(m) => m
  }

  /** What `init` writes to standard error, given the settings read from the environment. */
  function InitDiagnostics(help: bool, read: Credentials, parse: string -> Option<string>, authenticate: Credentials -> Authentication): seq<Diagnostic> {
    if help then []
    else
      var errs := ValidationErrors(read, parse);
      if errs != [] then InvalidArguments(errs)
      else
        var auth := authenticate(Normalised(read, parse));
        if auth.configErr.Some? then [AuthenticationError(auth.configErr.value)]
        else if auth.tokenErr.Some? then [AuthenticationError(auth.tokenErr.value)]
        else []
  }

  /** One diagnostic per validation error, in order. */
  function InvalidArguments(errs: seq<ValidationError>): (ds: seq<Diagnostic>)
    ensures |ds| == |errs|
    ensures forall i :: 0 <= i < |errs| ==> ds[i] == InvalidArgument(errs[i])
  {
    if errs == [] then [] else InvalidArguments(errs[..|errs| - 1]) + [InvalidArgument(errs[|errs| - 1])]
  }

  /**
   * A token is obtained only when every setting is present and every
   * identifier is a GUID, and then the token was requested with the
   * canonical identifiers.
   */
  lemma TokenNeedsValidSettings(help: bool, read: Credentials, parse: string -> Option<string>, authenticate: Credentials -> Authentication)
    requires TokenObtained(help, read, parse, authenticate)
    ensures !help
    ensures forall f :: Value(read, f) != "" && (IsIdentifier(f) ==> parse(Value(read, f)).Some?)
    ensures InitDiagnostics(help, read, parse, authenticate) == []
  {
    ValidationErrorsCharacterised(read, parse);
    forall f ensures Value(read, f) != "" && (IsIdentifier(f) ==> parse(Value(read, f)).Some?) {
      assert Acceptable(Value(read, f), f, parse);
    }
  }

  /**
   * The program's global settings: the four values read from the
   * environment, the `-help` flag and whether a token was obtained.
   */
  class Settings {
    var tenantID: string
    var subscriptionID: string
    var clientID: string
    var clientSecret: string
    var help: bool
    var hasToken: bool

    /** The zero values Go gives the globals before `init` runs. */
    constructor ()
      ensures Creds() == Credentials("", "", "", "") && !help && !hasToken
    {
      tenantID, subscriptionID, clientID, clientSecret := "", "", "", "";
      help, hasToken := false, false;
    }

    function Creds(): Credentials
      reads this
    {
      Credentials(tenantID, subscriptionID, clientID, clientSecret)
    }

    /**
     * `validateParameters`: checks the settings in order, collecting the
     * errors and rewriting each valid identifier into its canonical form.
     */
    method ValidateParameters(parse: string -> Option<string>) returns (errs: seq<ValidationError>)
      modifies this
      ensures errs == ValidationErrors(old(Creds()), parse)
      ensures Creds() == Normalised(old(Creds()), parse)
      ensures help == old(help) && hasToken == old(hasToken)
    {
      ghost var c := Creds();
      errs := [];
      if tenantID == "" {
        errs := errs + [Missing(TenantID)];
      } else if parse(tenantID).None? {
        errs := errs + [NotUuid(TenantID)];
      } else {
        tenantID := parse(tenantID).value;
      }
      assert errs == FieldErrors(c.tenantID, TenantID, parse);
      assert tenantID == NormalisedValue(c.tenantID, TenantID, parse);
      if subscriptionID == "" {
        errs := errs + [Missing(SubscriptionID)];
      } else if parse(subscriptionID).None? {
        errs := errs + [NotUuid(SubscriptionID)];
      } else {
        subscriptionID := parse(subscriptionID).value;
      }
      assert errs == FieldErrors(c.tenantID, TenantID, parse) + FieldErrors(c.subscriptionID, SubscriptionID, parse);
      assert subscriptionID == NormalisedValue(c.subscriptionID, SubscriptionID, parse);
      if clientID == "" {
        errs := errs + [Missing(ClientID)];
      } else if parse(clientID).None? {
        errs := errs + [NotUuid(ClientID)];
      } else {
        clientID := parse(clientID).value;
      }
      assert clientID == NormalisedValue(c.clientID, ClientID, parse);
      if clientSecret == "" {
        errs := errs + [Missing(ClientSecret)];
      }
    }

    /**
     * `init`: reads the settings from the environment (`getenv` yields ""
     * for an unset variable) and the `-help` flag; unless help was asked
     * for, validates the settings and, when they are all valid,
     * authenticates. Returns what it writes to standard error.
     */
    method Init(getenv: string -> string, helpFlag: bool, parse: string -> Option<string>, authenticate: Credentials -> Authentication)
      returns (diagnostics: seq<Diagnostic>)
      modifies this
      ensures help == helpFlag
      ensures var read := Credentials(getenv(TenantIDVar), getenv(SubscriptionIDVar), getenv(ClientIDVar), getenv(ClientSecretVar));
        && Creds() == (if helpFlag then read else Normalised(read, parse))
        && hasToken == (if ReachesToken(helpFlag, read, parse, authenticate) then TokenObtained(helpFlag, read, parse, authenticate) else old(hasToken))
        && diagnostics == InitDiagnostics(helpFlag, read, parse, authenticate)
    {
      subscriptionID := getenv(SubscriptionIDVar);
      clientID := getenv(ClientIDVar);
      clientSecret := getenv(ClientSecretVar);
      tenantID := getenv(TenantIDVar);
      help := helpFlag;
      if help {
        return [];
      }
      var errs := ValidateParameters(parse);
      if |errs| > 0 {
        return InvalidArguments(errs);
      }
      var auth := authenticate(Creds());
      if auth.configErr.Some? {
        return [AuthenticationError(auth.configErr.value)];
      }
      hasToken := auth.tokenErr.None?;
      if auth.tokenErr.Some? {
        return [AuthenticationError(auth.tokenErr.value)];
      }
      return [];
    }
  }

  /** Whether `init` gets as far as requesting the token, which it then overwrites. */
  predicate ReachesToken(help: bool, read: Credentials, parse: string -> Option<string>, authenticate: Credentials -> Authentication) {
    && !help
    && ValidationErrors(read, parse) == []
    && authenticate(Normalised(read, parse)).configErr.None?
  }
}
