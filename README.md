# Zengin transfer-field validator, modelled in Dafny

This project models `api.php`. That file is a single-endpoint validator and formatter for Japanese domestic bank-transfer (Zengin) fields. The request has six parameters. The model covers the following:

- **Required-parameter gate.** `bank_code`, `branch_code` and `account_number` are checked in that order with PHP `empty()`. The first one that is `""` or `"0"` is reported.
- **`str_pad(..., '0', STR_PAD_LEFT)`.** Bank codes are padded to 4 bytes, branch codes to 3 bytes and the amount to 10. `str_pad` measures width with `strlen`, which counts bytes. So the model measures a code's width as the length of its UTF-8 encoding. A full-width digit such as `１` takes 3 bytes, so it gets one zero in front, not three.
- **Bank and branch lookups.** These use reference tables keyed by the padded codes. Each has its own "file missing", "file malformed" and "key absent" errors.
- **Account-type mapping.** It takes a label and gives its code, falling back to `"Unknown"`.
- **`processZenginData`.** This pipeline validates the bank, then the branch, then builds the result record.

Modules:

- `wrappers.dfy` (`Wrappers`): `Option` stands for PHP's `null`. `Result` stands for a value or a thrown exception.
- `padding.dfy` (`Padding`): UTF-8 byte length, left padding, the decimal text PHP prints for an `int`, and reading a digit string back as a number.
- `zengin.dfy` (`Zengin`): the reference data, the request, result and error types, the exception messages, the validators, the pipeline and the whole request handler.

Reference data is passed in as a value:

- `Reference.banks` is `None` when `banks.json` does not exist. It is `Some(Malformed)` when `json_decode` gives `null`. Otherwise it is `Some(Decoded(table))`.
- `Reference.branches` maps a formatted bank code to the decoded `branches/<code>.json`. A code with no key has no branch file.

The half-width kana conversion `mb_convert_kana(..., "kas")` is a function parameter `hankaku`.

Details of the code the model keeps:

- Values are not trimmed before the emptiness check, and `"0"` counts as missing, because PHP `empty("0")` is true.
- The account-type table maps labels to codes; there is no mapping from codes back to labels.
- The amount is whatever the integer cast produced, and it may be negative. A negative amount is padded with its sign in place, so `-5` gives `"00000000-5"`.

## Model

| member | source | states |
|---|---|---|
| `Padding.Utf8Width` | api.php:74 | a code point takes 1 to 4 bytes in UTF-8, and exactly 1 when it is ASCII |
| `Padding.Utf8Length` | api.php:74 | the byte length `str_pad` compares with the width is at least the number of characters and at most four times it |
| `Padding.Utf8LengthConcat` | api.php:74 | the byte length of a concatenation is the sum of the byte lengths |
| `Padding.AsciiUtf8Length` | api.php:146 | on ASCII text, such as a number's decimal text, bytes and characters coincide |
| `Padding.Repeat` | api.php:74 | the pad run is exactly n copies of the pad character |
| `Padding.PadLeft` | api.php:74 | with a one-byte pad character, left padding gives a byte length of max(width, bytes of s), ends with s, has only pad characters before s, and returns s unchanged when it already takes the width or more |
| `Padding.PadLeftIdempotent` | api.php:142-143 | padding an already padded code changes nothing |
| `Padding.PadLeftAbsorbsLeadingPad` | api.php:102-103 | a code shorter than the width and the same code with one more leading zero pad to the same text |
| `Padding.PadLeftOfPaddedEqual` | api.php:74 | any number of leading zeros in front of a short code are absorbed by padding (`"1"`, `"01"`, `"0001"` all give `"0001"`) |
| `Padding.NatText` | api.php:146 | the decimal text of a natural number is non-empty, all digits, and has no leading zero unless the number is 0 |
| `Padding.IntText` | api.php:146 | the text of an int is ASCII; for n >= 0 it is all digits and reads back as n; for n < 0 it is `-` followed by digits that read back as -n |
| `Padding.NatTextRoundTrip` | api.php:146 | reading back the decimal text of n gives n |
| `Padding.LeadingZerosValue` | api.php:146 | zeros put in front of a digit string keep it all digits and do not change its value |
| `Padding.NatTextLength` | api.php:146 | the decimal text of n fits in k characters exactly when n < 10^k |
| `Zengin.EntryName` | api.php:148-149 | the `name` field of an entry is present exactly when the entry has that key, and is then its value; otherwise it is PHP's null |
| `Zengin.Message` | api.php:27-117 | the exception texts at api.php:27, 31, 35, 79, 84, 88, 108, 113 and 117; a missing-parameter message names the parameter; bank and branch messages contain the raw and formatted codes they report (and the raw bank code, for a branch) |
| `Zengin.IsEmpty` | api.php:26-34 | PHP `empty()` on a string: the empty string is empty; a one-character string is empty exactly when it is `"0"`; nothing longer is empty |
| `Zengin.CheckRequired` | api.php:26-36 | no error exactly when all three required values are non-empty; otherwise the error names the first empty one in the order bank_code, branch_code, account_number |
| `Zengin.EmptinessQuirks` | api.php:26-34 | `""` and `"0"` count as missing; `"00"`, `" "` and `"0 "` do not (no trimming) |
| `Zengin.FormatBankCode` | api.php:74 | a bank code under 4 bytes is zero-padded in front to exactly 4 bytes; a code of 4 bytes or more is kept as is; the code is always the suffix and only zeros precede it |
| `Zengin.FormatBranchCode` | api.php:103 | a branch code under 3 bytes is zero-padded in front to exactly 3 bytes; a code of 3 bytes or more is kept as is; the code is always the suffix and only zeros precede it |
| `Zengin.MultibyteCodeExamples` | api.php:102-103 | widths count bytes: `"１"` pads to `"0１"` as a bank code and stays `"１"` as a branch code; `"あいう"` is not padded |
| `Zengin.FormatAmount` | api.php:146 | the formatted amount has length max(10, length of the amount's text), ends with that text, and has only zeros before it |
| `Zengin.FormattedAmountReadsBack` | api.php:146 | a non-negative amount formats to digits that read back as the amount; the text is exactly 10 long when the amount is below 10^10 and is the full decimal text, never cut, otherwise |
| `Zengin.IntTextExamples` | api.php:146 | 0, 123, 1000 and -5 print as `"0"`, `"123"`, `"1000"` and `"-5"` |
| `Zengin.FormatAmountExamples` | api.php:146 | 123 gives `"0000000123"`, 0 gives `"0000000000"`, 1000 gives `"0000001000"`, -5 gives `"00000000-5"` |
| `Zengin.AccountTypeDescription` | api.php:160-168 | a label in the three-entry table (普通, 当座, 貯蓄) gets its code `"1"`, `"2"` or `"4"`; every other string, `""` included, gets `"Unknown"`, and nothing fails |
| `Zengin.AccountTypeCodesDistinct` | api.php:161-165 | different known labels get different codes |
| `Zengin.ValidateBankCode` | api.php:73-92 | a missing or malformed bank file fails before any lookup; otherwise it succeeds exactly when the 4-padded code is a key, returns that key's entry, and otherwise fails with the raw and formatted code; every failure is a bank error |
| `Zengin.ValidateBranchCode` | api.php:101-121 | picks the branch file of the 4-padded bank code; a missing or malformed file fails with the bank code; otherwise it succeeds exactly when the 3-padded branch code is a key, returns that key's entry, and otherwise fails with the raw and formatted branch code and the raw bank code |
| `Zengin.LeadingZeroSameLookup` | api.php:73-121 | a code under the width and the same code with a leading zero resolve to the same bank and branch entries, or both fail |
| `Zengin.ProcessZenginData` | api.php:134-153 | a bank failure is returned as is; only after the bank validates is a branch failure returned; when both validate the record holds the padded codes, the account number unchanged, the account-type code, the padded amount, the converted kana and the `name` fields of both entries |
| `Zengin.HandleRequest` | api.php:16-48 | a failed required-parameter check is the answer; otherwise the answer is the pipeline's |
| `Zengin.Param` | api.php:18-22 | a query parameter reads as its value when present and as `""`, which is empty, when absent |
| `Zengin.FromQuery` | api.php:18-23 | the request's required values are the query's bank_code, branch_code and account_number, each `""` when absent; account type and kana likewise; the amount is the cast integer |
| `Zengin.MissingParameterReported` | api.php:26-41 | an empty bank_code, branch_code or account_number (first in that order) gives that parameter's missing error whatever the reference data; a missing-parameter error comes only from the gate |
| `Zengin.AbsentParameterMissing` | api.php:18-35 | a required parameter absent from the query defaults to `""` and is reported missing: bank_code first, then branch_code, then account_number |
| `Zengin.GateBeforeLookup` | api.php:26-41 | once the gate fails, the outcome is the same for any reference data, so no lookup happens |
| `Zengin.BankErrorFirst` | api.php:136-138 | when the bank does not validate, the request fails with a bank error whatever the branch files |
| `Zengin.SuccessResolvesNames` | api.php:141-150 | on success all required values were present, both lookups hit their padded keys, the names are the `name` fields stored under them, the formatted codes are the padded inputs and the account number passes through unchanged |
| `Zengin.FixtureLookupsFullCodes` | api.php:87-91 | in the fixture, codes `0001` and `001` are found as they are |
| `Zengin.FixtureLookupsShortCodes` | api.php:116-120 | in the fixture, codes `"1"` and `"1"` are padded to `0001` and `001` and found |
| `Zengin.EndToEndScenario` | api.php:134-153 | bank 0001, branch 001, 普通, account 1234567, amount 1000 yields `0001`, `001`, `1`, `0000001000` and the fixture's names |
| `Zengin.ShortCodesScenario` | api.php:141-146 | codes `"1"` and `"1"` are padded to `0001` and `001` before lookup; an empty account type gives `"Unknown"` |
| `Zengin.UnknownBankScenario` | api.php:87-89 | bank code 9999, absent from the table, yields the invalid bank code error with raw and formatted code |
| `Zengin.ZeroBranchScenario` | api.php:30-31 | branch code `"0"` is reported missing |

## Left out

- HTTP handling is not modelled: the `Content-Type` header, the OPTIONS preflight, status codes 200/400 and `echo`, because these are I/O.
- The error response shape and its `date(...)` timestamp are not modelled, because they are serialization plus a clock. `Zengin.Message` gives the exception text that goes into it.
- File access and JSON decoding are not modelled. `file_exists`, `file_get_contents` and `json_decode` appear only as their outcome: the file is absent, it is malformed, or it decoded to an object. A file whose JSON top level is not an object, and a `null` value stored under a code, are not represented.
- Entries are string-to-string records. `$info['name']` on an entry that is not an array is not represented. A missing `name` field gives `None`, which stands for PHP's `null`.
- `mb_convert_kana(..., "kas")` is a caller-supplied function `hankaku`, because its character tables are in a foreign library. Consequently, no property of the kana conversion (such as idempotence on half-width text) is stated.
- The `(int)` cast of the query-string amount is not modelled. The request carries the already cast integer.
- Query values that PHP parses as arrays (`bank_code[]=...`) are not modelled, because every parameter is taken as a string.
- Query bytes that are not valid UTF-8 are not modelled, because a parameter is a sequence of code points and its byte width is the length of its UTF-8 encoding.
