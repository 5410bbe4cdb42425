/**
 * The per-administrator MFA record (`mfa_secret`, `mfa_habilitado`,
 * `mfa_backup_codes`) and the operations that rewrite it: setup, enabling
 * after a first code check, login verification with single-use backup codes,
 * disabling, status lookup and backup code (re)generation.
 * TOTP checking is the parameter `totp(secret, token)`; each `Math.random()`
 * draw is an element of `draws`; the generated secret is `generated`.
 */
module MfaService {
  import opened Outcomes
  import opened Strings

  const BACKUP_CODE_COUNT: nat := 10
  const BACKUP_CODE_MIN: int := 10000000
  const BACKUP_CODE_SPAN: int := 90000000

  const MSG_ADMIN_NOT_FOUND: string := "Administrador no encontrado"
  const MSG_NO_SECRET: string := "No hay secreto MFA configurado"
  const MSG_BAD_CODE: string := "Código de verificación inválido"
  const MSG_MFA_DISABLED: string := "MFA no está habilitado"
  const MSG_STATUS_ERROR: string := "Error al verificar estado de MFA"

  /** The MFA columns of an admin row; `None` is a `null` column. */
  datatype MfaRecord = MfaRecord(secret: Option<string>, enabled: bool, backupCodes: Option<seq<string>>)

  /** What setup returns (the QR code image is not modelled). */
  datatype MfaSetup = MfaSetup(secret: string, manualEntryKey: string)

  /** What a successful enabling returns. */
  datatype EnableReport = EnableReport(success: bool, backupCodes: seq<string>)

  // ---------------------------------------------------------------------
  // Record states
  // ---------------------------------------------------------------------

  /** `!admin.mfa_secret` is false: a secret is stored and is not empty. */
  predicate HasSecret(rec: MfaRecord) {
    rec.secret.Some? && rec.secret.value != ""
  }

  /** The check `verifyTOTP` makes before looking at the token. */
  predicate LoginEnabled(rec: MfaRecord) {
    rec.enabled && HasSecret(rec)
  }

  /** The record right after setup: new secret, not enabled, no backup codes. */
  function SetupRecord(secret: string): (rec: MfaRecord)
    ensures rec.secret == Some(secret) && !rec.enabled && rec.backupCodes.None?
  {
    MfaRecord(Some(secret), false, None)
  }

  /** The record after disabling: everything cleared. */
  function DisabledRecord(): (rec: MfaRecord)
    ensures rec.secret.None? && !rec.enabled && rec.backupCodes.None?
  {
    MfaRecord(None, false, None)
  }

  /** Setting MFA up again, even on an enabled admin, switches login checks off until re-enabled. */
  lemma SetupSuspendsLogin(secret: string)
    ensures !LoginEnabled(SetupRecord(secret))
  {
  }

  /** After disabling there is no way to log in with a code. */
  lemma DisabledRejectsLogin()
    ensures !LoginEnabled(DisabledRecord()) && !HasSecret(DisabledRecord())
  {
  }

  // ---------------------------------------------------------------------
  // Backup codes
  // ---------------------------------------------------------------------

  /** `Math.floor(10000000 + r * 90000000)` for a draw `r` in `[0, 1)`. */
  function BackupCodeValue(draw: real): (n: int)
    requires 0.0 <= draw < 1.0
    ensures BACKUP_CODE_MIN <= n < BACKUP_CODE_MIN + BACKUP_CODE_SPAN
  {
    (BACKUP_CODE_MIN as real + draw * BACKUP_CODE_SPAN as real).Floor
  }

  /** An eight-digit decimal code without a leading zero. */
  predicate IsBackupCode(code: string) {
    |code| == 8 && IsDigits(code) && code[0] != '0'
  }

  /** `.toString()` of one drawn value: eight digits that read back as that value. */
  function BackupCode(draw: real): (code: string)
    requires 0.0 <= draw < 1.0
    ensures IsBackupCode(code)
    ensures DigitsValue(code) == BackupCodeValue(draw)
  {
    var n := BackupCodeValue(draw);
    assert Pow10(7) == BACKUP_CODE_MIN && Pow10(8) == BACKUP_CODE_MIN + BACKUP_CODE_SPAN;
    NatToStringLength(n, 8);
    NatToStringRoundTrip(n);
    NatToString(n)
  }

  predicate ValidDraws(draws: seq<real>) {
    forall i :: 0 <= i < |draws| ==> 0.0 <= draws[i] < 1.0
  }

  /** `generateBackupCodes`: ten codes, one per draw, each eight digits. */
  method GenerateBackupCodes(draws: seq<real>) returns (codes: seq<string>)
    requires |draws| == BACKUP_CODE_COUNT && ValidDraws(draws)
    ensures |codes| == BACKUP_CODE_COUNT
    ensures forall i :: 0 <= i < |codes| ==> codes[i] == BackupCode(draws[i])
    ensures forall i :: 0 <= i < |codes| ==> IsBackupCode(codes[i])
  {
    codes := [];
    for i := 0 to BACKUP_CODE_COUNT
      invariant |codes| == i
      invariant forall k :: 0 <= k < i ==> codes[k] == BackupCode(draws[k])
    {
      var code := BackupCode(draws[i]);
      codes := codes + [code];
    }
  }

  /** `codes.findIndex(code => code === token)`: the first match, or -1. */
  function IndexOf(codes: seq<string>, token: string): (i: int)
    ensures -1 <= i < |codes|
    ensures i == -1 <==> token !in codes
    ensures i >= 0 ==> codes[i] == token && forall k :: 0 <= k < i ==> codes[k] != token
  {
    if |codes| == 0 then -1
    else if codes[0] == token then 0
    else
      var j := IndexOf(codes[1..], token);
      if j == -1 then -1 else j + 1
  }

  /** `codes.splice(i, 1)`: the codes without position `i`, the rest in order. */
  function RemoveAt(codes: seq<string>, i: nat): (rest: seq<string>)
    requires i < |codes|
    ensures |rest| == |codes| - 1
    ensures forall k :: 0 <= k < i ==> rest[k] == codes[k]
    ensures forall k :: i <= k < |rest| ==> rest[k] == codes[k + 1]
  {
    codes[..i] + codes[i + 1..]
  }

  /** Using a backup code takes away exactly one copy of it and nothing else. */
  lemma ConsumeTakesOneCopy(codes: seq<string>, token: string)
    requires token in codes
    ensures var i := IndexOf(codes, token);
      multiset(RemoveAt(codes, i)) + multiset{token} == multiset(codes)
  {
    var i := IndexOf(codes, token);
    var before, after := codes[..i], codes[i + 1..];
    assert RemoveAt(codes, i) == before + after;
    assert codes == before + [token] + after;
    assert multiset(codes) == multiset(before) + multiset{token} + multiset(after);
  }

  /** A code stored once cannot be used twice: after use it is gone. */
  lemma UniqueCodeSingleUse(codes: seq<string>, token: string)
    requires token in codes && multiset(codes)[token] == 1
    ensures token !in RemoveAt(codes, IndexOf(codes, token))
  {
    ConsumeTakesOneCopy(codes, token);
    var rest := RemoveAt(codes, IndexOf(codes, token));
    assert multiset(rest)[token] == 0;
  }

  /** The administrators' MFA columns, keyed by admin id. */
  class MfaStore {
    var admins: map<string, MfaRecord>

    constructor (admins: map<string, MfaRecord>)
      ensures this.admins == admins
    {
      this.admins := admins;
    }

    /**
     * `generateMFASecret`: stores the new secret with MFA switched off and the
     * backup codes cleared, and returns the secret twice (as `secret` and as
     * `manualEntryKey`). An unknown id updates no row.
     */
    method GenerateMFASecret(adminId: string, generated: string) returns (setup: MfaSetup)
      modifies this
      ensures setup.secret == generated && setup.manualEntryKey == setup.secret
      ensures admins == if adminId in old(admins) then old(admins)[adminId := SetupRecord(generated)]
                        else old(admins)
    {
      if adminId in admins {
        admins := admins[adminId := SetupRecord(generated)];
      }
      setup := MfaSetup(generated, generated);
    }

    /**
     * `verifyAndEnableMFA`: an unknown admin, a missing secret or a rejected
     * code fail and change nothing; otherwise MFA is switched on and the fresh
     * backup codes are stored and returned.
     */
    method VerifyAndEnableMFA(adminId: string, token: string, totp: (string, string) -> bool,
                              draws: seq<real>) returns (r: Result<EnableReport>)
      requires |draws| == BACKUP_CODE_COUNT && ValidDraws(draws)
      modifies this
      ensures adminId !in old(admins) ==> r == Err(MSG_ADMIN_NOT_FOUND)
      ensures adminId in old(admins) && !HasSecret(old(admins)[adminId]) ==> r == Err(MSG_NO_SECRET)
      ensures (adminId in old(admins) && HasSecret(old(admins)[adminId])
               && !totp(old(admins)[adminId].secret.value, token)) ==> r == Err(MSG_BAD_CODE)
      ensures r.Err? ==> admins == old(admins)
      ensures r.Ok? ==>
        && adminId in old(admins) && HasSecret(old(admins)[adminId])
        && totp(old(admins)[adminId].secret.value, token)
        && r.value.success
        && |r.value.backupCodes| == BACKUP_CODE_COUNT
        && (forall i :: 0 <= i < BACKUP_CODE_COUNT ==> r.value.backupCodes[i] == BackupCode(draws[i]))
        && admins == old(admins)[adminId := old(admins)[adminId].(enabled := true,
                                                                  backupCodes := Some(r.value.backupCodes))]
    {
      if adminId !in admins {
        return Err(MSG_ADMIN_NOT_FOUND);
      }
      var admin := admins[adminId];
      if !HasSecret(admin) {
        return Err(MSG_NO_SECRET);
      }
      if !totp(admin.secret.value, token) {
        return Err(MSG_BAD_CODE);
      }
      var codes := GenerateBackupCodes(draws);
      admins := admins[adminId := admin.(enabled := true, backupCodes := Some(codes))];
      r := Ok(EnableReport(true, codes));
    }

    /**
     * `verifyTOTP`: fails unless MFA is enabled with a secret; a token equal to
     * a stored backup code succeeds and removes the first such code; any other
     * token is judged by the TOTP check alone and changes nothing.
     */
    method VerifyTOTP(adminId: string, token: string, totp: (string, string) -> bool)
      returns (r: Result<bool>)
      modifies this
      ensures adminId !in old(admins) ==> r == Err(MSG_ADMIN_NOT_FOUND) && admins == old(admins)
      ensures adminId in old(admins) && !LoginEnabled(old(admins)[adminId]) ==>
        r == Err(MSG_MFA_DISABLED) && admins == old(admins)
      ensures adminId in old(admins) && LoginEnabled(old(admins)[adminId]) ==>
        var rec := old(admins)[adminId];
        if rec.backupCodes.Some? && token in rec.backupCodes.value then
          var codes := rec.backupCodes.value;
          r == Ok(true)
          && admins == old(admins)[adminId := rec.(backupCodes := Some(RemoveAt(codes, IndexOf(codes, token))))]
        else
          r == Ok(totp(rec.secret.value, token)) && admins == old(admins)
    {
      if adminId !in admins {
        return Err(MSG_ADMIN_NOT_FOUND);
      }
      var admin := admins[adminId];
      if !LoginEnabled(admin) {
        return Err(MSG_MFA_DISABLED);
      }
      if admin.backupCodes.Some? {
        var codes := admin.backupCodes.value;
        var codeIndex := IndexOf(codes, token);
        if codeIndex != -1 {
          codes := RemoveAt(codes, codeIndex);
          admins := admins[adminId := admin.(backupCodes := Some(codes))];
          return Ok(true);
        }
      }
      r := Ok(totp(admin.secret.value, token));
    }

    /** `disableMFA`: secret, flag and backup codes all cleared. */
    method DisableMFA(adminId: string) returns (success: bool)
      modifies this
      ensures success
      ensures admins == if adminId in old(admins) then old(admins)[adminId := DisabledRecord()]
                        else old(admins)
    {
      if adminId in admins {
        admins := admins[adminId := DisabledRecord()];
      }
      success := true;
    }

    /** `checkMFAStatus`: the enabled flag, or an error when the row is missing. */
    function CheckMFAStatus(adminId: string): (r: Result<bool>)
      reads this
      ensures r.Err? <==> adminId !in admins
      ensures r.Err? ==> r.message == MSG_STATUS_ERROR
      ensures r.Ok? ==> r.value == admins[adminId].enabled
    {
      if adminId !in admins then Err(MSG_STATUS_ERROR) else Ok(admins[adminId].enabled)
    }

    /**
     * `regenerateBackupCodes`: fresh codes replace the stored list; the secret
     * and the enabled flag are left as they were.
     */
    method RegenerateBackupCodes(adminId: string, draws: seq<real>) returns (codes: seq<string>)
      requires |draws| == BACKUP_CODE_COUNT && ValidDraws(draws)
      modifies this
      ensures |codes| == BACKUP_CODE_COUNT
      ensures forall i :: 0 <= i < |codes| ==> codes[i] == BackupCode(draws[i])
      ensures admins == if adminId in old(admins)
                        then old(admins)[adminId := old(admins)[adminId].(backupCodes := Some(codes))]
                        else old(admins)
    {
      codes := GenerateBackupCodes(draws);
      if adminId in admins {
        admins := admins[adminId := admins[adminId].(backupCodes := Some(codes))];
      }
    }
  }
}
