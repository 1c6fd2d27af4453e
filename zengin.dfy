/**
 * The request validator and formatter for Zengin (Japanese interbank)
 * transfer fields: the required-parameter gate, the bank and branch code
 * lookups against reference tables keyed by zero-padded codes, the
 * account-type mapping, and the pipeline that assembles the result record.
 * Thrown exceptions are `Failure` values; the reference files are values
 * handed in by the caller.
 */
module Zengin {
  import opened Wrappers
  import opened Padding

  // ---------------------------------------------------------------------------
  // Reference data

  /** One record of a reference table, as decoded from JSON: field name to value. */
  type Entry = map<string, string>

  /** The `name` field of an entry; reading a missing field gives PHP's null, here `None`. */
  function EntryName(e: Entry): (r: Option<string>)
    ensures r.Some? <==> "name" in e
    ensures r.Some? ==> r.value == e["name"]
  {
    if "name" in e then Some(e["name"]) else None
  }

  /** A reference file that exists: its JSON either failed to decode or decoded to an object. */
  datatype DataFile = Malformed | Decoded(table: map<string, Entry>)

  /**
   * All reference data: `banks` is the bank file (`None` when it does not
   * exist); `branches` holds one branch file per formatted bank code, and a
   * code that is not a key has no branch file.
   */
  datatype Reference = Reference(banks: Option<DataFile>, branches: map<string, DataFile>)

  // ---------------------------------------------------------------------------
  // Requests, results and errors

  /** The six query parameters after defaulting (absent strings are `""`) and the integer cast of the amount. */
  datatype Request = Request(
    bankCode: string,
    branchCode: string,
    accountType: string,
    accountNumber: string,
    accountHolderKana: string,
    amount: int)

  /** The record the pipeline returns on success. */
  datatype TransferResult = TransferResult(
    formattedBankCode: string,
    formattedBranchCode: string,
    formattedAccountNumber: string,
    accountTypeDescription: string,
    formattedAmount: string,
    accountHolderKanaHankaku: string,
    bankName: Option<string>,
    branchName: Option<string>)

  /** One constructor per exception the validator throws, carrying the values its message mentions. */
  datatype Error =
    | MissingParameter(parameter: string)
    | BanksFileNotFound
    | BanksFileInvalid
    | InvalidBankCode(bankCode: string, formattedBankCode: string)
    | BranchFileNotFound(bankCode: string, formattedBankCode: string)
    | BranchFileInvalid(bankCode: string)
    | InvalidBranchCode(branchCode: string, formattedBranchCode: string, bankCode: string)

  /** Bank errors are the ones bank validation throws. */
  predicate IsBankError(e: Error)
  {
    e.BanksFileNotFound? || e.BanksFileInvalid? || e.InvalidBankCode?
  }

  predicate Contains(s: string, part: string)
  {
    exists i :: 0 <= i <= |s| && part <= s[i..]
  }

  /**
   * The exception message of each error. A rejected code is reported with
   * both its raw and its formatted form (and the raw bank code, for a
   * branch), and a missing parameter by its name.
   */
  function Message(e: Error): (r: string)
    ensures e.MissingParameter? ==> Contains(r, e.parameter)
    ensures e.InvalidBankCode? ==> Contains(r, e.bankCode) && Contains(r, e.formattedBankCode)
    ensures e.BranchFileNotFound? ==> Contains(r, e.bankCode) && Contains(r, e.formattedBankCode)
    ensures e.BranchFileInvalid? ==> Contains(r, e.bankCode)
    ensures e.InvalidBranchCode? ==>
      Contains(r, e.branchCode) && Contains(r, e.formattedBranchCode) && Contains(r, e.bankCode)
  {
    match e
    case MissingParameter(p) =>
      var m := "Missing required parameter: " + p;
      ContainsInside("Missing required parameter: ", p, "");
      assert m + "" == m;
      m
    case BanksFileNotFound => "Banks data file not found: banks.json"
    case BanksFileInvalid => "Invalid banks.json file format"
    case InvalidBankCode(b, f) =>
      var m := "Invalid bank code: " + b + " (formatted: " + f + ")";
      assert m == "Invalid bank code: " + b + (" (formatted: " + f + ")");
      ContainsInside("Invalid bank code: ", b, " (formatted: " + f + ")");
      ContainsInside("Invalid bank code: " + b + " (formatted: ", f, ")");
      m
    case BranchFileNotFound(b, f) =>
      var m := "Branch data file not found for bank code: " + b + " (file: branches/" + f + ".json)";
      assert m == "Branch data file not found for bank code: " + b + (" (file: branches/" + f + ".json)");
      ContainsInside("Branch data file not found for bank code: ", b, " (file: branches/" + f + ".json)");
      ContainsInside("Branch data file not found for bank code: " + b + " (file: branches/", f, ".json)");
      m
    case BranchFileInvalid(b) =>
      var m := "Invalid branch file format for bank code: " + b;
      ContainsInside("Invalid branch file format for bank code: ", b, "");
      assert m + "" == m;
      m
    case InvalidBranchCode(br, f, b) =>
      var m := "Invalid branch code: " + br + " (formatted: " + f + ") for bank code: " + b;
      assert m == "Invalid branch code: " + br + (" (formatted: " + f + ") for bank code: " + b);
      assert m == "Invalid branch code: " + br + " (formatted: " + f + (") for bank code: " + b);
      ContainsInside("Invalid branch code: ", br, " (formatted: " + f + ") for bank code: " + b);
      ContainsInside("Invalid branch code: " + br + " (formatted: ", f, ") for bank code: " + b);
      ContainsInside("Invalid branch code: " + br + " (formatted: " + f + ") for bank code: ", b, "");
      assert m + "" == m;
      m
  }

  /** A text put between two others is contained in the result. */
  lemma ContainsInside(before: string, part: string, after: string)
    ensures Contains(before + part + after, part)
  {
    assert part <= (before + part + after)[|before|..];
  }

  // ---------------------------------------------------------------------------
  // Required parameters

  /** PHP `empty()` on a string: only `""` and `"0"` are empty; nothing is trimmed. */
  predicate IsEmpty(v: string)
    ensures |v| == 0 ==> IsEmpty(v)
    ensures |v| == 1 ==> (IsEmpty(v) <==> v[0] == '0')
    ensures |v| >= 2 ==> !IsEmpty(v)
  {
    v == "" || v == "0"
  }

  const RequiredParameters: seq<string> := ["bank_code", "branch_code", "account_number"]

  /** The values of the required parameters, in the order they are checked. */
  function RequiredValues(req: Request): seq<string>
  {
    [req.bankCode, req.branchCode, req.accountNumber]
  }

  /**
   * The required-parameter gate: no error when every required value is
   * non-empty, otherwise the error naming the first empty one.
   */
  function CheckRequired(req: Request): (r: Option<Error>)
    ensures r.None? <==> forall i :: 0 <= i < |RequiredParameters| ==> !IsEmpty(RequiredValues(req)[i])
    ensures r.Some? ==>
      exists i :: 0 <= i < |RequiredParameters| && IsEmpty(RequiredValues(req)[i])
        && (forall j :: 0 <= j < i ==> !IsEmpty(RequiredValues(req)[j]))
        && r.value == MissingParameter(RequiredParameters[i])
  {
    var values := RequiredValues(req);
    assert values[0] == req.bankCode && values[1] == req.branchCode && values[2] == req.accountNumber;
    if IsEmpty(req.bankCode) then
      Some(MissingParameter("bank_code"))
    else if IsEmpty(req.branchCode) then
      Some(MissingParameter("branch_code"))
    else if IsEmpty(req.accountNumber) then
      Some(MissingParameter("account_number"))
    else
      None
  }

  /** `"0"` is missing like `""`, while `"00"` and `" "` are present values. */
  lemma EmptinessQuirks()
    ensures IsEmpty("0") && IsEmpty("")
    ensures !IsEmpty("00") && !IsEmpty(" ") && !IsEmpty("0 ")
  {
  }

  // ---------------------------------------------------------------------------
  // Field formatting

  const BankCodeWidth := 4
  const BranchCodeWidth := 3
  const AmountWidth := 10

  /**
   * A bank code is zero-padded in front to 4 bytes; a code of 4 bytes or
   * more is kept as is. Width is in UTF-8 bytes, so a multibyte character
   * takes the place of several zeros.
   */
  function FormatBankCode(code: string): (r: string)
    ensures Utf8Length(code) < BankCodeWidth ==> Utf8Length(r) == BankCodeWidth
    ensures Utf8Length(code) >= BankCodeWidth ==> r == code
    ensures |r| >= |code| && r[|r| - |code|..] == code
    ensures forall i :: 0 <= i < |r| - |code| ==> r[i] == '0'
  {
    PadLeft(code, BankCodeWidth, '0')
  }

  /** A branch code is zero-padded in front to 3 bytes; a code of 3 bytes or more is kept as is. */
  function FormatBranchCode(code: string): (r: string)
    ensures Utf8Length(code) < BranchCodeWidth ==> Utf8Length(r) == BranchCodeWidth
    ensures Utf8Length(code) >= BranchCodeWidth ==> r == code
    ensures |r| >= |code| && r[|r| - |code|..] == code
    ensures forall i :: 0 <= i < |r| - |code| ==> r[i] == '0'
  {
    PadLeft(code, BranchCodeWidth, '0')
  }

  /** The amount's decimal text, zero-padded in front to 10 characters, and never cut. */
  function FormatAmount(amount: int): (r: string)
    ensures |r| == Max(AmountWidth, |IntText(amount)|)
    ensures r[|r| - |IntText(amount)|..] == IntText(amount)
    ensures forall i :: 0 <= i < |r| - |IntText(amount)| ==> r[i] == '0'
  {
    AsciiUtf8Length(IntText(amount));
    PadLeft(IntText(amount), AmountWidth, '0')
  }

  /**
   * Widths count bytes: the full-width digit `"１"` (3 bytes) gets one zero,
   * and `"あいう"` (9 bytes) is already over the width.
   */
  lemma MultibyteCodeExamples()
    ensures FormatBankCode("１") == "0１"
    ensures FormatBankCode("あいう") == "あいう"
    ensures FormatBranchCode("１") == "１"
  {
    assert Utf8Length("１") == 3 by {
      assert "１"[1..] == [];
    }
    assert Utf8Length("あいう") == 9 by {
      assert "あいう"[1..] == "いう" && "いう"[1..] == "う" && "う"[1..] == [];
    }
  }

  /**
   * A non-negative amount is formatted as its decimal digits, zero-padded to
   * ten characters when shorter: the text reads back as the amount, and it is
   * exactly ten characters long when the amount is below 10^10, longer (never
   * cut) otherwise.
   */
  lemma FormattedAmountReadsBack(amount: nat)
    ensures AllDigits(FormatAmount(amount))
    ensures DigitsValue(FormatAmount(amount)) == amount
    ensures |FormatAmount(amount)| == AmountWidth <==> amount < Pow10(AmountWidth)
    ensures |FormatAmount(amount)| >= AmountWidth
    ensures amount >= Pow10(AmountWidth) ==> FormatAmount(amount) == NatText(amount)
  {
    var t := NatText(amount);
    NatTextRoundTrip(amount);
    NatTextLength(amount, AmountWidth);
    assert IntText(amount) == t;
    if |t| < AmountWidth {
      LeadingZerosValue(AmountWidth - |t|, t);
    }
  }

  /** The decimal texts behind the amount examples. */
  lemma IntTextExamples()
    ensures IntText(0) == "0"
    ensures IntText(123) == "123"
    ensures IntText(1000) == "1000"
    ensures IntText(-5) == "-5"
  {
    assert NatText(12) == "12";
    assert NatText(10) == "10";
    assert NatText(100) == "100";
  }

  /** 1000 gives "0000001000", 123 gives "0000000123", 0 gives "0000000000", and a negative amount keeps its sign after the zeros. */
  lemma FormatAmountExamples()
    ensures FormatAmount(123) == "0000000123"
    ensures FormatAmount(0) == "0000000000"
    ensures FormatAmount(1000) == "0000001000"
    ensures FormatAmount(-5) == "00000000-5"
  {
    IntTextExamples();
    AsciiUtf8Length("123");
    AsciiUtf8Length("0");
    AsciiUtf8Length("1000");
    AsciiUtf8Length("-5");
    assert Repeat('0', 6) == "000000";
    assert Repeat('0', 7) == "0000000";
    assert Repeat('0', 8) == "00000000";
    assert Repeat('0', 9) == "000000000";
  }



  // ---------------------------------------------------------------------------
  // Account type

  /** The account-type table: label to one-digit code. */
  const AccountTypes: map<string, string> := map["普通" := "1", "当座" := "2", "貯蓄" := "4"]

  /**
   * The one-digit code of an account-type label, or `"Unknown"` for any
   * other string; this step never fails. It agrees with `AccountTypes`.
   */
  function AccountTypeDescription(accountType: string): (r: string)
    ensures accountType in AccountTypes ==> r == AccountTypes[accountType]
    ensures r == "Unknown" <==> accountType !in AccountTypes
    ensures r in {"1", "2", "4", "Unknown"}
  {
    if accountType == "普通" then "1"
    else if accountType == "当座" then "2"
    else if accountType == "貯蓄" then "4"
    else "Unknown"
  }

  /** Distinct known labels get distinct codes, so the code identifies the label. */
  lemma AccountTypeCodesDistinct(a: string, b: string)
    requires a in AccountTypes && b in AccountTypes
    requires AccountTypeDescription(a) == AccountTypeDescription(b)
    ensures a == b
  {
  }

  // ---------------------------------------------------------------------------
  // Bank and branch validation

  /**
   * Bank validation: fails when the bank file is missing or malformed;
   * otherwise returns the entry stored under the 4-padded code, or fails
   * with the raw and the formatted code when there is none.
   */
  function ValidateBankCode(bankCode: string, banks: Option<DataFile>): (r: Result<Entry, Error>)
    ensures banks.None? ==> r == Failure(BanksFileNotFound)
    ensures banks == Some(Malformed) ==> r == Failure(BanksFileInvalid)
    ensures r.Success? <==> banks.Some? && banks.value.Decoded? && FormatBankCode(bankCode) in banks.value.table
    ensures r.Success? ==> r.value == banks.value.table[FormatBankCode(bankCode)]
    ensures r.Failure? && banks.Some? && banks.value.Decoded? ==>
      r.error == InvalidBankCode(bankCode, FormatBankCode(bankCode))
    ensures r.Failure? ==> IsBankError(r.error)
  {
    var formatted := FormatBankCode(bankCode);
    match banks
    case None => Failure(BanksFileNotFound)
    case Some(Malformed) => Failure(BanksFileInvalid)
    case Some(Decoded(table)) =>
      if formatted in table then Success(table[formatted]) else Failure(InvalidBankCode(bankCode, formatted))
  }

  /**
   * Branch validation: picks the branch file of the 4-padded bank code and
   * fails when it is missing or malformed; otherwise returns the entry under
   * the 3-padded branch code, or fails with the raw branch code, the
   * formatted branch code and the raw bank code.
   */
  function ValidateBranchCode(bankCode: string, branchCode: string, branches: map<string, DataFile>): (r: Result<Entry, Error>)
    ensures FormatBankCode(bankCode) !in branches ==>
      r == Failure(BranchFileNotFound(bankCode, FormatBankCode(bankCode)))
    ensures FormatBankCode(bankCode) in branches && branches[FormatBankCode(bankCode)].Malformed? ==>
      r == Failure(BranchFileInvalid(bankCode))
    ensures r.Success? <==>
      FormatBankCode(bankCode) in branches && branches[FormatBankCode(bankCode)].Decoded?
      && FormatBranchCode(branchCode) in branches[FormatBankCode(bankCode)].table
    ensures r.Success? ==> r.value == branches[FormatBankCode(bankCode)].table[FormatBranchCode(branchCode)]
    ensures r.Failure? && FormatBankCode(bankCode) in branches && branches[FormatBankCode(bankCode)].Decoded? ==>
      r.error == InvalidBranchCode(branchCode, FormatBranchCode(branchCode), bankCode)
    ensures r.Failure? ==> !IsBankError(r.error)
  {
    var formattedBank := FormatBankCode(bankCode);
    var formattedBranch := FormatBranchCode(branchCode);
    if formattedBank !in branches then
      Failure(BranchFileNotFound(bankCode, formattedBank))
    else
      match branches[formattedBank]
      case Malformed => Failure(BranchFileInvalid(bankCode))
      case Decoded(table) =>
        if formattedBranch in table then Success(table[formattedBranch])
        else Failure(InvalidBranchCode(branchCode, formattedBranch, bankCode))
  }

  /**
   * Leading zeros in a short code do not matter to a lookup: the code and the
   * code with a zero put in front resolve to the same entry or both fail.
   */
  lemma LeadingZeroSameLookup(bankCode: string, branchCode: string, ref: Reference)
    requires Utf8Length(bankCode) < BankCodeWidth && Utf8Length(branchCode) < BranchCodeWidth
    ensures ValidateBankCode("0" + bankCode, ref.banks).Success? == ValidateBankCode(bankCode, ref.banks).Success?
    ensures ValidateBankCode(bankCode, ref.banks).Success? ==>
      ValidateBankCode("0" + bankCode, ref.banks).value == ValidateBankCode(bankCode, ref.banks).value
    ensures ValidateBranchCode("0" + bankCode, "0" + branchCode, ref.branches).Success?
      == ValidateBranchCode(bankCode, branchCode, ref.branches).Success?
    ensures ValidateBranchCode(bankCode, branchCode, ref.branches).Success? ==>
      ValidateBranchCode("0" + bankCode, "0" + branchCode, ref.branches).value
      == ValidateBranchCode(bankCode, branchCode, ref.branches).value
  {
    PadLeftAbsorbsLeadingPad(bankCode, BankCodeWidth, '0');
    PadLeftAbsorbsLeadingPad(branchCode, BranchCodeWidth, '0');
  }

  // ---------------------------------------------------------------------------
  // The pipeline

  /**
   * Validates the bank, then the branch, then assembles the result record.
   * `hankaku` stands for the half-width kana conversion of the holder name.
   */
  function ProcessZenginData(req: Request, ref: Reference, hankaku: string -> string): (r: Result<TransferResult, Error>)
    ensures ValidateBankCode(req.bankCode, ref.banks).Failure? ==>
      r == Failure(ValidateBankCode(req.bankCode, ref.banks).error)
    ensures (ValidateBankCode(req.bankCode, ref.banks).Success?
             && ValidateBranchCode(req.bankCode, req.branchCode, ref.branches).Failure?) ==>
      r == Failure(ValidateBranchCode(req.bankCode, req.branchCode, ref.branches).error)
    ensures (ValidateBankCode(req.bankCode, ref.banks).Success?
             && ValidateBranchCode(req.bankCode, req.branchCode, ref.branches).Success?) ==>
      r == Success(TransferResult(
        FormatBankCode(req.bankCode),
        FormatBranchCode(req.branchCode),
        req.accountNumber,
        AccountTypeDescription(req.accountType),
        FormatAmount(req.amount),
        hankaku(req.accountHolderKana),
        EntryName(ValidateBankCode(req.bankCode, ref.banks).value),
        EntryName(ValidateBranchCode(req.bankCode, req.branchCode, ref.branches).value)))
  {
    match ValidateBankCode(req.bankCode, ref.banks)
    case Failure(e) => Failure(e)
    case Success(bankInfo) =>
      match ValidateBranchCode(req.bankCode, req.branchCode, ref.branches)
      case Failure(e) => Failure(e)
      case Success(branchInfo) =>
        Success(TransferResult(
          FormatBankCode(req.bankCode),
          FormatBranchCode(req.branchCode),
          req.accountNumber,
          AccountTypeDescription(req.accountType),
          FormatAmount(req.amount),
          hankaku(req.accountHolderKana),
          EntryName(bankInfo),
          EntryName(branchInfo)))
  }

  /** The request handler: the required-parameter gate, then the pipeline. */
  function HandleRequest(req: Request, ref: Reference, hankaku: string -> string): (r: Result<TransferResult, Error>)
    ensures CheckRequired(req).Some? ==> r == Failure(CheckRequired(req).value)
    ensures CheckRequired(req).None? ==> r == ProcessZenginData(req, ref, hankaku)
  {
    match CheckRequired(req)
    case Some(e) => Failure(e)
    case None => ProcessZenginData(req, ref, hankaku)
  }

  /** Query parameters as strings, absent ones read as `""`; `amount` is the already cast integer. */
  function FromQuery(query: map<string, string>, amount: int): (r: Request)
    ensures RequiredValues(r) == [Param(query, "bank_code"), Param(query, "branch_code"), Param(query, "account_number")]
    ensures r.accountType == Param(query, "account_type")
    ensures r.accountHolderKana == Param(query, "account_holder_kana")
    ensures r.amount == amount
  {
    Request(Param(query, "bank_code"), Param(query, "branch_code"), Param(query, "account_type"),
            Param(query, "account_number"), Param(query, "account_holder_kana"), amount)
  }

  /** A parameter's value, or `""` when the query does not have it, so an absent parameter is empty. */
  function Param(query: map<string, string>, key: string): (r: string)
    ensures key in query ==> r == query[key]
    ensures key !in query ==> r == "" && IsEmpty(r)
  {
    if key in query then query[key] else ""
  }

  // ---------------------------------------------------------------------------
  // Properties of the whole request

  /**
   * A missing required parameter is reported by name, the first in the order
   * bank_code, branch_code, account_number, whatever the reference data.
   */
  lemma MissingParameterReported(req: Request, ref: Reference, hankaku: string -> string)
    ensures IsEmpty(req.bankCode) ==>
      HandleRequest(req, ref, hankaku) == Failure(MissingParameter("bank_code"))
    ensures !IsEmpty(req.bankCode) && IsEmpty(req.branchCode) ==>
      HandleRequest(req, ref, hankaku) == Failure(MissingParameter("branch_code"))
    ensures !IsEmpty(req.bankCode) && !IsEmpty(req.branchCode) && IsEmpty(req.accountNumber) ==>
      HandleRequest(req, ref, hankaku) == Failure(MissingParameter("account_number"))
    ensures HandleRequest(req, ref, hankaku).Failure? && HandleRequest(req, ref, hankaku).error.MissingParameter? ==>
      CheckRequired(req).Some?
  {
    var r := HandleRequest(req, ref, hankaku);
    if CheckRequired(req).None? && r.Failure? {
      assert !r.error.MissingParameter? by {
        if ValidateBankCode(req.bankCode, ref.banks).Failure? {
          assert IsBankError(r.error);
        }
      }
    }
  }

  /** A required parameter absent from the query counts as missing, checked in order. */
  lemma AbsentParameterMissing(query: map<string, string>, amount: int, ref: Reference, hankaku: string -> string)
    ensures "bank_code" !in query ==>
      HandleRequest(FromQuery(query, amount), ref, hankaku) == Failure(MissingParameter("bank_code"))
    ensures "bank_code" in query && !IsEmpty(query["bank_code"]) && "branch_code" !in query ==>
      HandleRequest(FromQuery(query, amount), ref, hankaku) == Failure(MissingParameter("branch_code"))
    ensures ("bank_code" in query && !IsEmpty(query["bank_code"])
             && "branch_code" in query && !IsEmpty(query["branch_code"])
             && "account_number" !in query) ==>
      HandleRequest(FromQuery(query, amount), ref, hankaku) == Failure(MissingParameter("account_number"))
  {
    MissingParameterReported(FromQuery(query, amount), ref, hankaku);
  }

  /** Once a required parameter fails, no lookup happens: the outcome does not depend on the reference data. */
  lemma GateBeforeLookup(req: Request, ref1: Reference, ref2: Reference, hankaku1: string -> string, hankaku2: string -> string)
    requires CheckRequired(req).Some?
    ensures HandleRequest(req, ref1, hankaku1) == HandleRequest(req, ref2, hankaku2)
    ensures HandleRequest(req, ref1, hankaku1).Failure? && HandleRequest(req, ref1, hankaku1).error.MissingParameter?
  {
  }

  /**
   * The bank is validated before the branch: whenever the bank code does not
   * validate, the request fails with a bank error, whatever the branch code
   * and the branch files.
   */
  lemma BankErrorFirst(req: Request, ref: Reference, hankaku: string -> string)
    requires CheckRequired(req).None?
    requires ValidateBankCode(req.bankCode, ref.banks).Failure?
    ensures HandleRequest(req, ref, hankaku).Failure?
    ensures IsBankError(HandleRequest(req, ref, hankaku).error)
    ensures forall branches :: HandleRequest(req, ref.(branches := branches), hankaku) == HandleRequest(req, ref, hankaku)
  {
  }

  /**
   * On success the formatted codes are the padded inputs, the account number
   * passes through, and the names are those of the entries stored under the
   * padded codes.
   */
  lemma SuccessResolvesNames(req: Request, ref: Reference, hankaku: string -> string)
    ensures HandleRequest(req, ref, hankaku).Success? ==>
      && !IsEmpty(req.bankCode) && !IsEmpty(req.branchCode) && !IsEmpty(req.accountNumber)
      && ref.banks.Some? && ref.banks.value.Decoded?
      && FormatBankCode(req.bankCode) in ref.banks.value.table
      && FormatBankCode(req.bankCode) in ref.branches && ref.branches[FormatBankCode(req.bankCode)].Decoded?
      && FormatBranchCode(req.branchCode) in ref.branches[FormatBankCode(req.bankCode)].table
      && HandleRequest(req, ref, hankaku).value.bankName
         == EntryName(ref.banks.value.table[FormatBankCode(req.bankCode)])
      && HandleRequest(req, ref, hankaku).value.branchName
         == EntryName(ref.branches[FormatBankCode(req.bankCode)].table[FormatBranchCode(req.branchCode)])
      && HandleRequest(req, ref, hankaku).value.formattedBankCode == FormatBankCode(req.bankCode)
      && HandleRequest(req, ref, hankaku).value.formattedBranchCode == FormatBranchCode(req.branchCode)
      && HandleRequest(req, ref, hankaku).value.formattedAccountNumber == req.accountNumber
  {
  }

  /** The reference fixture of the end-to-end scenario: bank 0001 with its branch 001. */
  function FixtureReference(): Reference
  {
    Reference(
      Some(Decoded(map["0001" := map["name" := "みずほ銀行"]])),
      map["0001" := Decoded(map["001" := map["name" := "東京営業部"]])])
  }

  /** In the fixture, bank 0001 and its branch 001 are found from their full codes. */
  lemma FixtureLookupsFullCodes()
    ensures FormatBankCode("0001") == "0001" && FormatBranchCode("001") == "001"
    ensures ValidateBankCode("0001", FixtureReference().banks) == Success(map["name" := "みずほ銀行"])
    ensures ValidateBranchCode("0001", "001", FixtureReference().branches) == Success(map["name" := "東京営業部"])
  {
    AsciiUtf8Length("0001");
    AsciiUtf8Length("001");
  }

  /** In the fixture, bank 0001 and its branch 001 are also found from the codes "1" and "1". */
  lemma FixtureLookupsShortCodes()
    ensures FormatBankCode("1") == "0001" && FormatBranchCode("1") == "001"
    ensures ValidateBankCode("1", FixtureReference().banks) == Success(map["name" := "みずほ銀行"])
    ensures ValidateBranchCode("1", "1", FixtureReference().branches) == Success(map["name" := "東京営業部"])
  {
    AsciiUtf8Length("1");
    assert FormatBankCode("1") == "0001" by {
      assert Repeat('0', 3) == "000";
    }
    assert FormatBranchCode("1") == "001" by {
      assert Repeat('0', 2) == "00";
    }
  }

  /** End to end: a well-formed request for bank 0001, branch 001 succeeds with the formatted fields and the fixture's names. */
  lemma EndToEndScenario(hankaku: string -> string)
    ensures HandleRequest(Request("0001", "001", "普通", "1234567", "ﾀﾞﾉｸ", 1000), FixtureReference(), hankaku)
      == Success(TransferResult("0001", "001", "1234567", "1", "0000001000", hankaku("ﾀﾞﾉｸ"),
                                Some("みずほ銀行"), Some("東京営業部")))
  {
    FixtureLookupsFullCodes();
    FormatAmountExamples();
    assert CheckRequired(Request("0001", "001", "普通", "1234567", "ﾀﾞﾉｸ", 1000)).None?;
    assert AccountTypeDescription("普通") == "1";
  }

  /** Short codes are padded before the lookup, and an unknown account type is not an error. */
  lemma ShortCodesScenario(hankaku: string -> string)
    ensures HandleRequest(Request("1", "1", "", "1234567", "", 0), FixtureReference(), hankaku)
      == Success(TransferResult("0001", "001", "1234567", "Unknown", "0000000000", hankaku(""),
                                Some("みずほ銀行"), Some("東京営業部")))
  {
    FixtureLookupsShortCodes();
    FormatAmountExamples();
    assert CheckRequired(Request("1", "1", "", "1234567", "", 0)).None?;
    assert AccountTypeDescription("") == "Unknown";
  }

  /** Bank 9999 is absent from the fixture: the bank error names the raw and the formatted code. */
  lemma UnknownBankScenario(hankaku: string -> string)
    ensures HandleRequest(Request("9999", "001", "普通", "1234567", "", 0), FixtureReference(), hankaku)
      == Failure(InvalidBankCode("9999", "9999"))
  {
    AsciiUtf8Length("9999");
    assert FormatBankCode("9999") == "9999";
  }

  /** A branch code of "0" is reported missing before any lookup, although it would pad to branch 000. */
  lemma ZeroBranchScenario(hankaku: string -> string)
    ensures HandleRequest(Request("0001", "0", "普通", "1234567", "", 0), FixtureReference(), hankaku)
      == Failure(MissingParameter("branch_code"))
  {
  }
}
