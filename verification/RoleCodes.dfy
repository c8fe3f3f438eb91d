/**
 The `role` claim: effective role codes joined by commas into a token, and split again when
 a request is authorised.
 */
module RoleCodes {
  import opened Options

  // ---------------------------------------------------------------- joining

  function JoinComma(codes: seq<string>): string {
    if codes == [] then ""
    else if |codes| == 1 then codes[0]
    else codes[0] + "," + JoinComma(codes[1..])
  }

  /** `resolveRole` on the ordered distinct codes the query returned. */
  function ResolveRole(codes: seq<string>): Option<string> {
    if codes == [] then None else Some(JoinComma(codes))
  }

  // ---------------------------------------------------------------- splitting

  /** White space and line terminators, as String.prototype.trim takes them. */
  predicate WhiteSpace(c: char) {
    || '\U{9}' <= c <= '\U{d}' || c == ' ' || c == '\U{a0}' || c == '\U{1680}'
    || '\U{2000}' <= c <= '\U{200a}' || c == '\U{2028}' || c == '\U{2029}' || c == '\U{202f}'
    || c == '\U{205f}' || c == '\U{3000}' || c == '\U{feff}'
  }

  function TrimLeft(s: string): (t: string)
    ensures t == "" || !WhiteSpace(t[0])
    ensures s == "" || !WhiteSpace(s[0]) ==> t == s
    ensures |t| <= |s| && t == s[|s| - |t|..]
  {
    if s != "" && WhiteSpace(s[0]) then TrimLeft(s[1..]) else s
  }

  function TrimRight(s: string): (t: string)
    ensures t == "" || !WhiteSpace(t[|t| - 1])
    ensures s == "" || !WhiteSpace(s[|s| - 1]) ==> t == s
    ensures t <= s
  {
    if s != "" && WhiteSpace(s[|s| - 1]) then TrimRight(s[..|s| - 1]) else s
  }

  function Trim(s: string): string {
    TrimRight(TrimLeft(s))
  }

  predicate Trimmed(s: string) {
    s != "" ==> !WhiteSpace(s[0]) && !WhiteSpace(s[|s| - 1])
  }

  lemma TrimIsTrimmed(s: string)
    ensures Trimmed(Trim(s))
    ensures Trimmed(s) ==> Trim(s) == s
  {
  }

  /** `s.split(',')` */
  function SplitComma(s: string): (parts: seq<string>)
    ensures parts != []
    ensures CommaFree(parts)
  {
    if s == "" then [""]
    else
      var rest := SplitComma(s[1..]);
      if s[0] == ',' then [""] + rest
      else [[s[0]] + rest[0]] + rest[1..]
  }

  /** `.map(trim).filter(Boolean)` */
  function TrimmedNonEmpty(parts: seq<string>): seq<string> {
    if parts == [] then []
    else
      var code := Trim(parts[0]);
      (if code == "" then [] else [code]) + TrimmedNonEmpty(parts[1..])
  }

  function RoleCodes(role: Option<string>): seq<string> {
    TrimmedNonEmpty(SplitComma(GetOr(role, "")))
  }

  const PLATFORM_ADMIN_ROLES: set<string> := {"ADMIN", "SUPER_ADMIN"}

  predicate SomePlatformAdmin(codes: seq<string>) {
    exists i :: 0 <= i < |codes| && codes[i] in PLATFORM_ADMIN_ROLES
  }

  predicate IsPlatformAdmin(role: Option<string>) {
    SomePlatformAdmin(RoleCodes(role))
  }

  // ---------------------------------------------------------------- splitting undoes joining

  /** A code that survives joining, splitting and trimming. */
  predicate Clean(code: string) {
    code != "" && ',' !in code && Trimmed(code)
  }

  predicate AllClean(codes: seq<string>) {
    forall i :: 0 <= i < |codes| ==> Clean(codes[i])
  }

  predicate CommaFree(parts: seq<string>) {
    forall i :: 0 <= i < |parts| ==> ',' !in parts[i]
  }

  lemma {:induction false} SplitOfPart(part: string, rest: string)
    requires ',' !in part
    ensures SplitComma(part) == [part]
    ensures SplitComma(part + "," + rest) == [part] + SplitComma(rest)
  {
    if part == "" {
      assert part + "," + rest == "," + rest && ("," + rest)[1..] == rest;
    } else {
      var s := part + "," + rest;
      assert s[1..] == part[1..] + "," + rest;
      assert forall c :: c in part[1..] ==> c in part;
      SplitOfPart(part[1..], rest);
      assert [part[0]] + part[1..] == part;
    }
  }

  lemma {:induction false} SplitOfJoin(codes: seq<string>)
    requires codes != [] && CommaFree(codes)
    ensures SplitComma(JoinComma(codes)) == codes
  {
    if |codes| == 1 {
      SplitOfPart(codes[0], "");
    } else {
      SplitOfPart(codes[0], JoinComma(codes[1..]));
      SplitOfJoin(codes[1..]);
    }
  }

  lemma {:induction false} KeepsClean(codes: seq<string>)
    requires AllClean(codes)
    ensures TrimmedNonEmpty(codes) == codes
  {
    if codes != [] {
      TrimIsTrimmed(codes[0]);
      KeepsClean(codes[1..]);
    }
  }

  lemma TrimYieldsClean(part: string)
    requires ',' !in part
    ensures Trim(part) == "" || Clean(Trim(part))
  {
  }

  lemma {:induction false} YieldsClean(parts: seq<string>)
    requires CommaFree(parts)
    ensures AllClean(TrimmedNonEmpty(parts))
  {
    if parts != [] {
      TrimYieldsClean(parts[0]);
      YieldsClean(parts[1..]);
    }
  }

  /** Splitting the claim gives back the joined codes exactly when every code is clean. */
  lemma SplitUndoesJoinIff(codes: seq<string>)
    ensures RoleCodes(ResolveRole(codes)) == codes <==> AllClean(codes)
  {
    if codes == [] {
      assert SplitComma("") == [""];
      TrimIsTrimmed("");
      assert TrimmedNonEmpty([""]) == [];
    } else if AllClean(codes) {
      SplitOfJoin(codes);
      KeepsClean(codes);
    } else {
      YieldsClean(SplitComma(JoinComma(codes)));
    }
  }

  // ---------------------------------------------------------------- codes a request may carry

  predicate CodeStart(c: char) {
    'A' <= c <= 'Z' || '0' <= c <= '9'
  }

  /** `/^[A-Z0-9][A-Z0-9_-]*$/` */
  predicate MatchesCodePattern(code: string) {
    code != "" && CodeStart(code[0])
    && forall i :: 0 <= i < |code| ==> CodeStart(code[i]) || code[i] == '_' || code[i] == '-'
  }

  lemma PatternIsClean(code: string)
    requires MatchesCodePattern(code)
    ensures Clean(code)
  {
  }

  /** Role codes accepted by the request pattern survive, and decide platform administration. */
  lemma ClaimRoundTrip(codes: seq<string>)
    requires forall i :: 0 <= i < |codes| ==> MatchesCodePattern(codes[i])
    ensures RoleCodes(ResolveRole(codes)) == codes
    ensures IsPlatformAdmin(ResolveRole(codes)) <==> SomePlatformAdmin(codes)
  {
    forall i | 0 <= i < |codes|
      ensures Clean(codes[i])
    {
      PatternIsClean(codes[i]);
    }
    SplitUndoesJoinIff(codes);
  }

  // ---------------------------------------------------------------- roles of the API and stored codes

  datatype UserRole = ADMIN | USER | MANAGER

  /** The code a user is given for the role of a request, ADMIN and MANAGER apart STANDARD_USER. */
  function ToDumpRoleCode(role: Option<UserRole>, hasTenant: bool): string {
    match role
    case Some(ADMIN) => if hasTenant then "TENANT_ADMIN" else "SUPER_ADMIN"
    case Some(MANAGER) => "BRANCH_MANAGER"
    case _ => "STANDARD_USER"
  }

  /** The role a user with that code is shown to have. */
  function ToApiRole(roleCode: Option<string>): UserRole {
    if roleCode in {Some("ADMIN"), Some("SUPER_ADMIN"), Some("TENANT_ADMIN")} then ADMIN
    else if roleCode in {Some("MANAGER"), Some("BRANCH_MANAGER")} then MANAGER
    else USER
  }

  /** A requested role is shown back, and is a platform administrator's exactly for ADMIN without a tenant. */
  lemma RequestedRoleIsShown(role: Option<UserRole>, hasTenant: bool)
    ensures ToApiRole(Some(ToDumpRoleCode(role, hasTenant))) == GetOr(role, USER)
    ensures ToDumpRoleCode(role, hasTenant) in PLATFORM_ADMIN_ROLES <==> role == Some(ADMIN) && !hasTenant
  {
  }
}
