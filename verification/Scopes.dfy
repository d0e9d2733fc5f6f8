/** OAuth scopes: server/okk_mcp/security.py and the consent choice of server/okk_mcp/oauth.py. */
module Scopes {
  import opened Common

  datatype Word =
    | OpenId
    | Email
    | StatisticsRead
    | ScenariosRead
    | TranscriptsRead
    | PhonesRead
    | Unknown(name: string)

  /** A raw scope parameter. `Absent` is a missing or empty parameter (both are false in Python);
      `Text({})` is a parameter of blanks only, which is true but splits into no words. */
  datatype ScopeText = Absent | Text(words: set<Word>)

  const ALLOWED: set<Word> := {OpenId, Email, StatisticsRead, ScenariosRead, TranscriptsRead, PhonesRead}

  /** The words of DEFAULT_SCOPES: every allowed scope. */
  const DEFAULTS: set<Word> := ALLOWED

  /** The access a person may refuse on the login page. */
  const OPTIONAL_GRANTS: set<Word> := {TranscriptsRead, PhonesRead}

  /** The submitted consent form; `version2` is `consent_version == "2"`. */
  datatype Consent = Consent(version2: bool, checked: set<Word>)

  /** A stored scope read back as a parameter: the empty grant is stored as the empty text. */
  function AsText(scope: set<Word>): ScopeText {
    if scope == {} then Absent else Text(scope)
  }

  /** `validate_scopes`: an absent scope means the defaults; `None` is the ValueError. */
  function ValidateScopes(text: ScopeText): (scope: Option<set<Word>>)
    ensures scope.Some? ==> {} < scope.value <= ALLOWED
  {
    var requested := if text.Absent? then DEFAULTS else text.words;
    if requested == {} || !(requested <= ALLOWED) then None else Some(requested)
  }

  /** `_granted_scope`: the requested scopes minus the optional access the person unchecked. */
  function GrantedScope(requested: set<Word>, form: Consent): (granted: set<Word>)
    ensures granted <= requested
    ensures requested - granted <= OPTIONAL_GRANTS
    ensures form.version2 ==> granted * OPTIONAL_GRANTS <= form.checked
    ensures !form.version2 || OPTIONAL_GRANTS <= form.checked ==> granted == requested
  {
    if !form.version2 then requested else requested - (OPTIONAL_GRANTS - form.checked)
  }

  /** The scope a refresh asks for: its own parameter, else the scope of the presented token. */
  function RefreshScope(asked: ScopeText, held: set<Word>): Option<set<Word>> {
    ValidateScopes(if asked.Absent? then AsText(held) else asked)
  }

  /** A refresh can be granted exactly when it names a non-empty part of what is held: in particular
      the empty grant is refused whatever is asked, because its empty text falls back to the defaults
      and the subset test then fails. */
  lemma RefreshScopeGrantable(asked: ScopeText, held: set<Word>)
    requires held <= ALLOWED
    ensures var asks := RefreshScope(asked, held);
      (asks.Some? && asks.value <= held) <==>
      (held != {} && (asked.Absent? || {} < asked.words <= held))
  {
    if asked.Absent? && held == {} {
      assert OpenId in DEFAULTS;
    }
  }
}
