/**
 * The Joi schemas of the request bodies: the create and update schemas for
 * posts and the (identical) create and update schemas for accounts.
 *
 * A body is a map from keys to values; a value is a string, null, or anything
 * else (a number, an object, ...), which no field of these schemas accepts as
 * a string. Joi's uri() and email() are predicates given as parameters. Fields
 * with trim() are checked, and passed on, after trimming. A body is rejected
 * with the set of keys that fail, unknown keys included.
 */
module Validations {
  import opened Wrappers
  import Js

  datatype Value = Str(s: string) | Null | NonString

  type Body = map<string, Value>

  /** The keys a body may not carry: Joi objects reject unknown keys. */
  function UnknownKeys(body: Body, known: set<string>): (r: set<string>)
    ensures forall k :: k in r <==> k in body && k !in known
  {
    set k | k in body && k !in known
  }

  // ---------------------------------------------------------------------------
  // Posts
  // ---------------------------------------------------------------------------

  const PostKeys: set<string> := {"name", "type", "url", "account", "status"}

  /** name: string, trimmed, at least one character. */
  predicate NameOk(v: Value) {
    v.Str? && Js.Trim(v.s) != ""
  }

  /** type: 'video' or 'image'. */
  predicate TypeOk(v: Value) {
    v.Str? && (v.s == "video" || v.s == "image")
  }

  /** url: a non-empty string passing uri(). */
  predicate UrlOk(v: Value, isUri: string -> bool) {
    v.Str? && v.s != "" && isUri(v.s)
  }

  /** account: exactly 24 hexadecimal characters, either case. */
  predicate AccountIdOk(v: Value) {
    v.Str? && |v.s| == 24 && forall i :: 0 <= i < |v.s| ==> Js.IsHexDigit(v.s[i])
  }

  /** status: 'pending' or 'posted'. */
  predicate StatusOk(v: Value) {
    v.Str? && (v.s == "pending" || v.s == "posted")
  }

  /** The post fields a body gets wrong: missing or invalid required ones, an invalid status, unknown keys. */
  function PostErrors(body: Body, statusRequired: bool, isUri: string -> bool): set<string> {
    UnknownKeys(body, PostKeys)
    + (if "name" in body && NameOk(body["name"]) then {} else {"name"})
    + (if "type" in body && TypeOk(body["type"]) then {} else {"type"})
    + (if "url" in body && UrlOk(body["url"], isUri) then {} else {"url"})
    + (if "account" in body && AccountIdOk(body["account"]) then {} else {"account"})
    + (if "status" in body then (if StatusOk(body["status"]) then {} else {"status"})
       else if statusRequired then {"status"} else {})
  }

  /** A validated post body, name trimmed. */
  datatype PostInput = PostInput(name: string, mediaType: string, url: string, account: string, status: Option<string>)

  function ValidatePost(body: Body, statusRequired: bool, isUri: string -> bool): (r: Result<PostInput, set<string>>)
    ensures r.Err? ==> r.error != {}
  {
    var errors := PostErrors(body, statusRequired, isUri);
    if errors != {} then Err(errors)
    else
      assert "name" !in errors && "type" !in errors && "url" !in errors && "account" !in errors;
      Ok(PostInput(Js.Trim(body["name"].s), body["type"].s, body["url"].s, body["account"].s,
                   if "status" in body then Some(body["status"].s) else None))
  }

  /** createPostSchema: status optional. */
  function CreatePost(body: Body, isUri: string -> bool): Result<PostInput, set<string>> {
    ValidatePost(body, false, isUri)
  }

  /** updatePostSchema: status required. */
  function UpdatePost(body: Body, isUri: string -> bool): Result<PostInput, set<string>> {
    ValidatePost(body, true, isUri)
  }

  /** Every check of the post schema passes. */
  predicate PostBodyOk(body: Body, statusRequired: bool, isUri: string -> bool) {
    && (forall k :: k in body ==> k in PostKeys)
    && "name" in body && NameOk(body["name"])
    && "type" in body && TypeOk(body["type"])
    && "url" in body && UrlOk(body["url"], isUri)
    && "account" in body && AccountIdOk(body["account"])
    && ("status" in body ==> StatusOk(body["status"]))
    && (statusRequired ==> "status" in body)
  }

  lemma NoPostErrors(body: Body, statusRequired: bool, isUri: string -> bool)
    ensures PostErrors(body, statusRequired, isUri) == {} <==> PostBodyOk(body, statusRequired, isUri)
  {
    var errors := PostErrors(body, statusRequired, isUri);
    if errors != {} {
      var k :| k in errors;
    }
  }

  /**
   * A post body is accepted exactly when it holds only schema keys, a name
   * that is not blank, a type of video or image, a uri, a 24-character hex
   * account, and a valid status (which the update schema requires); the
   * accepted name is the trimmed one.
   */
  lemma PostAccepted(body: Body, statusRequired: bool, isUri: string -> bool)
    ensures ValidatePost(body, statusRequired, isUri).Ok? <==> PostBodyOk(body, statusRequired, isUri)
    ensures var r := ValidatePost(body, statusRequired, isUri);
      r.Ok? ==> (&& r.value.name == Js.Trim(body["name"].s) && r.value.name != ""
                 && (r.value.status.Some? <==> "status" in body))
  {
    NoPostErrors(body, statusRequired, isUri);
  }

  /** A missing required field is reported by its key. */
  lemma MissingPostFieldReported(body: Body, statusRequired: bool, isUri: string -> bool, key: string)
    requires key in {"name", "type", "url", "account"} || (statusRequired && key == "status")
    requires key !in body
    ensures ValidatePost(body, statusRequired, isUri).Err?
    ensures key in ValidatePost(body, statusRequired, isUri).error
  {
  }

  /**
   * The two post schemas differ only in status: the update schema accepts
   * exactly the bodies the create schema accepts that carry a status, with the
   * same result.
   */
  lemma CreateAndUpdatePost(body: Body, isUri: string -> bool)
    ensures UpdatePost(body, isUri).Ok? <==> CreatePost(body, isUri).Ok? && "status" in body
    ensures UpdatePost(body, isUri).Ok? ==> UpdatePost(body, isUri) == CreatePost(body, isUri)
    ensures "status" in body ==> UpdatePost(body, isUri) == CreatePost(body, isUri)
  {
    if "status" !in body {
      assert "status" in PostErrors(body, true, isUri);
    }
  }

  // ---------------------------------------------------------------------------
  // Accounts
  // ---------------------------------------------------------------------------

  const AccountKeys: set<string> := {"username", "ig_user_id", "access_token", "email"}

  /** username: string, trimmed, at least three characters. */
  predicate UsernameOk(v: Value) {
    v.Str? && |Js.Trim(v.s)| >= 3
  }

  /** ig_user_id and access_token: any string (trimmed), '' or null. */
  predicate TextOrNull(v: Value) {
    v.Str? || v.Null?
  }

  /** email: '' (after trimming), null, or a trimmed string passing email(). */
  predicate EmailOk(v: Value, isEmail: string -> bool) {
    v.Null? || (v.Str? && (Js.Trim(v.s) == "" || isEmail(Js.Trim(v.s))))
  }

  function AccountErrors(body: Body, isEmail: string -> bool): set<string> {
    UnknownKeys(body, AccountKeys)
    + (if "username" in body && UsernameOk(body["username"]) then {} else {"username"})
    + (if "ig_user_id" in body && !TextOrNull(body["ig_user_id"]) then {"ig_user_id"} else {})
    + (if "access_token" in body && !TextOrNull(body["access_token"]) then {"access_token"} else {})
    + (if "email" in body && !EmailOk(body["email"], isEmail) then {"email"} else {})
  }

  /** A validated account body: strings trimmed, null kept as null, absent fields absent. */
  datatype AccountInput = AccountInput(username: string, igUserId: Option<Value>, accessToken: Option<Value>,
                                       email: Option<Value>)

  /** The value passed on for an optional trimmed field. */
  function Trimmed(body: Body, key: string): Option<Value> {
    if key !in body then None
    else match body[key]
      case Str(s) => Some(Str(Js.Trim(s)))
      case other => Some(other)
  }

  /** createAccountSchema, and updateAccountSchema, which declares the same fields with the same rules. */
  function ValidateAccount(body: Body, isEmail: string -> bool): (r: Result<AccountInput, set<string>>)
    ensures r.Err? ==> r.error != {}
  {
    var errors := AccountErrors(body, isEmail);
    if errors != {} then Err(errors)
    else
      assert "username" !in errors;
      Ok(AccountInput(Js.Trim(body["username"].s), Trimmed(body, "ig_user_id"), Trimmed(body, "access_token"),
                      Trimmed(body, "email")))
  }

  /** An accepted username has at least three characters once trimmed, and is passed on trimmed. */
  lemma AcceptedUsername(body: Body, isEmail: string -> bool)
    requires ValidateAccount(body, isEmail).Ok?
    ensures "username" in body && body["username"].Str?
    ensures ValidateAccount(body, isEmail).value.username == Js.Trim(body["username"].s)
    ensures |ValidateAccount(body, isEmail).value.username| >= 3
  {
    assert "username" !in AccountErrors(body, isEmail);
  }

  /** username is the only required field: a body with just a good username is accepted. */
  lemma OnlyUsernameRequired(u: string, isEmail: string -> bool)
    requires |Js.Trim(u)| >= 3
    ensures ValidateAccount(map["username" := Str(u)], isEmail).Ok?
  {
    var body := map["username" := Str(u)];
    assert UnknownKeys(body, AccountKeys) == {};
    assert AccountErrors(body, isEmail) == {};
  }

  /** ig_user_id and access_token take '', null or any string: setting either clears that key's error and touches no other. */
  lemma CredentialsTakeAnyText(body: Body, isEmail: string -> bool, key: string, v: Value)
    requires key == "ig_user_id" || key == "access_token"
    requires v.Str? || v.Null?
    ensures AccountErrors(body[key := v], isEmail) == AccountErrors(body, isEmail) - {key}
  {
    var body' := body[key := v];
    var errs := AccountErrors(body, isEmail);
    var errs' := AccountErrors(body', isEmail);
    forall k ensures k in errs' <==> k in errs - {key} {
      if k !in AccountKeys {
        assert k in UnknownKeys(body', AccountKeys) <==> k in UnknownKeys(body, AccountKeys);
      }
    }
  }

  /** email is checked only when it is present, and then it passes as null, blank, or a trimmed address. */
  lemma EmailRule(body: Body, isEmail: string -> bool)
    ensures "email" in AccountErrors(body, isEmail) <==>
      "email" in body && !body["email"].Null?
      && !(body["email"].Str? && (Js.Trim(body["email"].s) == "" || isEmail(Js.Trim(body["email"].s))))
  {
  }
}
