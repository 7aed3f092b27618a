/** A desktop's or a Home's own credentials for one account, and which version of the
    account's link each one mirrors. */
module Credentials {
  import opened Base
  import opened Links

  /** A local credential. Its version counts linkings and rotations here; revoking keeps
      it. The token is what the sealed token opens to, absent when nothing is sealed. */
  datatype Credential = Credential(version: nat, active: bool, token: Option<string>, baseUrl: string,
                                   authentication: Authentication, classes: set<ExecutionClass>)
  {
    predicate Usable() {
      active && token.Some?
    }
  }

  /** Which version of the account's link a local credential holds, and the local version
      it had when it last matched. */
  datatype Mirror = Mirror(account: string, version: nat, localVersion: nat)

  datatype Local = Local(creds: map<string, Credential>, mirrors: map<string, Mirror>)

  function AuthenticationFor(provider: string): Authentication {
    if provider == "anthropic" then ApiKey
    else if provider == "openai-codex" || provider == "xai-grok" then OAuth
    else Bearer
  }

  /** Link or rotate: the version advances on every upsert. */
  function Upserted(local: Local, provider: string, token: string, baseUrl: string, classes: set<ExecutionClass>)
    : Local
  {
    var version := if provider in local.creds then local.creds[provider].version + 1 else 1;
    local.(creds := local.creds[provider := Credential(version, true, Some(token), baseUrl,
                                                       AuthenticationFor(provider), classes)])
  }

  /** Unlink: the record stays, revoked and without a token, at the same version. */
  function Removed(local: Local, provider: string): Local {
    var gone :=
      if provider in local.creds then local.creds[provider].(active := false, token := None)
      else Credential(1, false, None, "", AuthenticationFor(provider), {});
    local.(creds := local.creds[provider := gone])
  }

  function Mirrored(local: Local, provider: string, mirror: Mirror): Local {
    local.(mirrors := local.mirrors[provider := mirror])
  }

  function Unmirrored(local: Local, provider: string): Local {
    local.(mirrors := local.mirrors - {provider})
  }
}
