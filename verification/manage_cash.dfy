/** The guards of the cash form (`ManageCash.jsx`): which deposit and
    withdrawal amounts pass on to the service call, and what the form
    holds afterwards. The amounts are the text of the input fields,
    compared the way JavaScript compares a string with a number. */
module ManageCash {
  import Js
  import Text
  import ApiService
  import opened Wrappers

  /** What a guard decides: the amount passed on to the service call, or
      the alert shown. */
  datatype Outcome = Sent(amount: Js.Number) | Alerted(message: string)

  const InvalidDeposit: string := "Please enter a valid deposit amount"
  const InsufficientFunds: string := "Insufficient funds for withdrawal"

  /** `handleDeposit`: refused when the text is not a number or is at most
      zero (an empty field reads as 0 and is refused). */
  function Deposit(input: string): (r: Outcome)
    ensures r.Sent? <==> Js.ToNumberString(input).Num? && Js.ToNumberString(input).value > 0.0
    ensures r.Sent? ==> r.amount == Js.ToNumberString(input)
    ensures r.Alerted? ==> r.message == InvalidDeposit
  {
    var n := Js.ToNumberString(input);
    if n.NaN? || Js.LessEq(n, Js.Num(0.0)) then Alerted(InvalidDeposit) else Sent(n)
  }

  /** `handleWithdrawal`: passed on when the amount is at most the balance, or
      is not a number, or is negative. */
  function Withdraw(input: string, balance: Js.Number): (r: Outcome)
    ensures r.Sent? ==> r.amount == Js.ToNumberString(input)
    ensures r.Alerted? ==> r.message == InsufficientFunds
  {
    var n := Js.ToNumberString(input);
    if Js.LessEq(n, balance) || n.NaN? || Js.Less(n, Js.Num(0.0)) then Sent(n) else Alerted(InsufficientFunds)
  }

  /** A withdrawal is refused exactly when the amount is a non-negative
      number that is not within the balance. */
  lemma WithdrawRefusedIff(input: string, balance: Js.Number)
    ensures var n := Js.ToNumberString(input);
      Withdraw(input, balance).Alerted? <==>
        n.Num? && n.value >= 0.0 && !(balance.Num? && n.value <= balance.value) && balance != Js.Inf(true)
  {
  }

  /** The guard lets negative amounts and unreadable text through, so a
      negative withdrawal is sent even against an empty balance. */
  lemma WithdrawAdmitsNegatives(input: string, balance: Js.Number)
    requires Js.ToNumberString(input).NaN? || (Js.ToNumberString(input).Num? && Js.ToNumberString(input).value < 0.0)
    ensures Withdraw(input, balance).Sent?
  {
  }

  /** Both guards pass a positive amount within the balance. */
  lemma WithinBalanceSent(input: string, balance: real)
    requires Js.ToNumberString(input).Num? && 0.0 < Js.ToNumberString(input).value <= balance
    ensures Deposit(input).Sent? && Withdraw(input, Js.Num(balance)).Sent?
  {
  }

  /** An amount typed in exponent form is read as the number it denotes:
      "5e2" deposits 500, while "5e" is refused. */
  lemma ExponentDeposit(m: nat, k: nat)
    requires m > 0
    ensures Deposit(Text.FormatNat(m) + "e" + Text.FormatNat(k)) == Sent(Js.Num((m * Text.Pow10(k)) as real))
    ensures Deposit(Text.FormatNat(m) + "e") == Alerted(InvalidDeposit)
  {
    Js.ExponentForms(m, k);
    PositiveProduct(m, Text.Pow10(k));
    DepositOfPositive(Text.FormatNat(m) + "e" + Text.FormatNat(k), (m * Text.Pow10(k)) as real);
    DepositOfNaN(Text.FormatNat(m) + "e");
  }

  lemma DepositOfPositive(input: string, v: real)
    requires Js.ToNumberString(input) == Js.Num(v) && v > 0.0
    ensures Deposit(input) == Sent(Js.Num(v))
  {
  }

  lemma DepositOfNaN(input: string)
    requires Js.ToNumberString(input) == Js.NaN
    ensures Deposit(input) == Alerted(InvalidDeposit)
  {
  }

  lemma PositiveProduct(a: nat, b: nat)
    requires a > 0 && b > 0
    ensures a * b > 0
  {
  }

  const DepositCall: string := "depositCash"
  const WithdrawCall: string := "withdrawCash"

  /** The form after a submit: the text left in the input, the amount that
      reached the server, and the alert shown. */
  datatype Submitted = Submitted(input: string, requested: Option<Js.Number>, alert: Option<string>)

  /** A submit whose guard decided `guard` and whose handler then calls the
      service method `call`. The input is cleared only after the call
      returns, so when the service lacks the method the call throws, the
      handler stops and the text stays. */
  function Submit(input: string, guard: Outcome, call: string): (r: Submitted)
    ensures r.alert.Some? <==> guard.Alerted?
    ensures r.requested.Some? <==> guard.Sent? && ApiService.Defines(call)
    ensures r.requested.Some? ==> r.requested.value == guard.amount && r.input == ""
    ensures r.requested.None? ==> r.input == input
  {
    match guard
    case Alerted(m) => Submitted(input, None, Some(m))
    case Sent(amount) =>
      if ApiService.Defines(call) then Submitted("", Some(amount), None)
      else Submitted(input, None, None)
  }

  function DepositSubmit(input: string): Submitted {
    Submit(input, Deposit(input), DepositCall)
  }

  function WithdrawSubmit(input: string, balance: Js.Number): Submitted {
    Submit(input, Withdraw(input, balance), WithdrawCall)
  }

  /** Neither form ever reaches the server or clears its input: an amount
      the guard lets through meets a call to a method the service does not
      define. Only the alerts of the guards are ever seen. */
  lemma FormsNeverSend(deposit: string, withdrawal: string, balance: Js.Number)
    ensures var d := DepositSubmit(deposit);
      d.requested.None? && d.input == deposit && (d.alert.Some? <==> Deposit(deposit).Alerted?)
    ensures var w := WithdrawSubmit(withdrawal, balance);
      w.requested.None? && w.input == withdrawal && (w.alert.Some? <==> Withdraw(withdrawal, balance).Alerted?)
  {
    ApiService.MissingMethods();
  }
}
