/**
 * `POST /api/fink/transfers`: validates `sourceAccount.id` and then
 * `transaction.amount`, defaults the currency, and classifies the transfer
 * by the account rule; a successful transfer gets a display id `tr_` plus 16
 * symbols. The clock reading and the random draws are parameters.
 */
module FinkTransfersRoute {
  import opened Wrappers
  import opened JsText
  import opened JsError
  import opened Json
  import opened Http

  /** The 32 display symbols: upper-case letters and digits without `I`, `O`, `0` and `1`. */
  const Alphabet: string := "ABCDEFGHJKLMNPQRSTUVWXYZ23456789"
  const IdPrefix: string := "tr_"
  const SymbolCount: nat := 16

  /** One draw of `Math.floor(Math.random() * chars.length)`: an index into the alphabet. */
  type Draw = i: nat | i < 32

  /** The symbols of the alphabet, described by ranges of code points. */
  predicate IsSymbol(c: char) {
    ('A' <= c <= 'Z' && c != 'I' && c != 'O') || ('2' <= c <= '9')
  }

  /** The position of a symbol in the alphabet, computed from its code point. */
  function SymbolValue(c: char): (i: int)
    ensures IsSymbol(c) ==> 0 <= i < 32
  {
    if 'A' <= c <= 'H' then c as int - 'A' as int
    else if 'J' <= c <= 'N' then c as int - 'A' as int - 1
    else if 'P' <= c <= 'Z' then c as int - 'A' as int - 2
    else c as int - '2' as int + 24
  }

  /** The symbol at a position, computed from the position. */
  function SymbolAt(i: Draw): (c: char)
    ensures IsSymbol(c) && SymbolValue(c) == i
  {
    if i < 8 then ('A' as int + i) as char
    else if i < 13 then ('A' as int + i + 1) as char
    else if i < 24 then ('A' as int + i + 2) as char
    else ('2' as int + i - 24) as char
  }

  /** The alphabet string spells out exactly the computed symbols, in order. */
  lemma AlphabetSpelled()
    ensures |Alphabet| == 32
    ensures forall i: Draw :: Alphabet[i] == SymbolAt(i)
  {
  }

  /** Every symbol sits at its computed position. */
  lemma SymbolRoundTrip(c: char)
    requires IsSymbol(c)
    ensures SymbolAt(SymbolValue(c) as Draw) == c
  {
  }

  /** The range description agrees with the alphabet string. */
  lemma SymbolsAreAlphabet(c: char)
    ensures IsSymbol(c) <==> c in Alphabet
  {
    AlphabetSpelled();
    if IsSymbol(c) {
      SymbolRoundTrip(c);
      assert Alphabet[SymbolValue(c)] == c;
    }
  }

  /** A well-formed display id: `tr_` followed by 16 symbols of the alphabet. */
  predicate IsTransactionId(id: string) {
    && |id| == |IdPrefix| + SymbolCount
    && id[..|IdPrefix|] == IdPrefix
    && forall k :: |IdPrefix| <= k < |id| ==> IsSymbol(id[k])
  }

  /**
   * `generateTransactionId`, given the 16 draws in order. The symbol for a
   * draw is computed by `SymbolAt`, which `AlphabetSpelled` proves to be the
   * alphabet's character at that index.
   */
  function GenerateTransactionId(draws: seq<Draw>): (id: string)
    requires |draws| == SymbolCount
    ensures IsTransactionId(id)
    ensures forall k :: 0 <= k < SymbolCount ==> id[|IdPrefix| + k] == SymbolAt(draws[k])
  {
    IdPrefix + seq(SymbolCount, k requires 0 <= k < SymbolCount => SymbolAt(draws[k]))
  }

  /** The k-th symbol of a generated id is the alphabet's character at the k-th draw. */
  lemma {:induction false} GeneratedFromAlphabet(draws: seq<Draw>)
    requires |draws| == SymbolCount
    ensures forall k :: 0 <= k < SymbolCount ==> GenerateTransactionId(draws)[|IdPrefix| + k] == Alphabet[draws[k]]
  {
    AlphabetSpelled();
  }

  /** The draw that selects a symbol. */
  function DrawOf(c: char): Draw
    requires IsSymbol(c)
  {
    SymbolValue(c)
  }

  /** The draws behind a well-formed display id. */
  function DrawsOf(id: string): (draws: seq<Draw>)
    requires IsTransactionId(id)
    ensures |draws| == SymbolCount
  {
    seq<Draw>(SymbolCount, k requires 0 <= k < SymbolCount => DrawOf(id[|IdPrefix| + k]))
  }

  /** The display id determines the draws: reading them back gives the draws that made it. */
  lemma {:induction false} DrawsOfGenerate(draws: seq<Draw>)
    requires |draws| == SymbolCount
    ensures DrawsOf(GenerateTransactionId(draws)) == draws
  {
    var id := GenerateTransactionId(draws);
    var back := DrawsOf(id);
    forall k | 0 <= k < SymbolCount ensures back[k] == draws[k] {
      assert back[k] == DrawOf(id[|IdPrefix| + k]);
    }
  }

  /** Every well-formed display id is generated by the draws read from it. */
  lemma {:induction false} GenerateDrawsOf(id: string)
    requires IsTransactionId(id)
    ensures GenerateTransactionId(DrawsOf(id)) == id
  {
    var draws := DrawsOf(id);
    var again := GenerateTransactionId(draws);
    var n := |IdPrefix|;
    forall k | 0 <= k < SymbolCount ensures again[n..][k] == id[n..][k] {
      SymbolRoundTrip(id[n + k]);
      assert draws[k] == DrawOf(id[n + k]);
    }
    assert again[n..] == id[n..];
    TakeDrop(again, n);
    TakeDrop(id, n);
  }

  /** A character that is easily misread: `I`, `O`, `0` or `1`. */
  predicate IsLookalike(c: char) {
    c == 'I' || c == 'O' || c == '0' || c == '1'
  }

  /** A display id is 19 characters long and never holds `I`, `O`, `0` or `1`. */
  lemma {:induction false} TransactionIdAvoidsLookalikes(id: string)
    requires IsTransactionId(id)
    ensures |id| == 19
    ensures forall k :: 0 <= k < |id| ==> !IsLookalike(id[k])
  {
    forall k | 0 <= k < |id| ensures !IsLookalike(id[k]) {
      if k < |IdPrefix| {
        assert id[k] == id[..|IdPrefix|][k];
      }
    }
  }

  /** The `status` field: `SUCCESS` or `FAILED`. */
  datatype TransferStatus = Succeeded | Failed

  /** The `echo` object: the trimmed account id, the amount and the currency as sent (or its default). */
  datatype Echo = Echo(sourceAccountId: string, amount: real, currency: Value)

  datatype TransferResponse = TransferResponse(
    status: TransferStatus,
    transactionId: Option<string>,
    processedAt: string,
    failureCode: Option<string>,
    failureReason: Option<string>,
    echo: Echo)

  const SourceAccountIdRequired := "sourceAccount.id is required"
  const AmountRequired := "transaction.amount is required and must be a number"
  const DefaultCurrency: string := "USD"
  const InvalidAccountCode := "INVALID_ACCOUNT"
  const InvalidAccountReason := "Account ID is missing or empty"
  const BlockedCode := "ACCOUNT_BLOCKED"
  const BlockedReason := "Transfers from this account are blocked"

  /** `body.transaction.currency || 'USD'`: a falsy currency (absent, `null`, `false`, `0`, `""`) becomes `USD`. */
  function CurrencyOf(currency: Prop): (r: Value)
    ensures !currency.Truthy() ==> r == Str(DefaultCurrency)
    ensures currency.Truthy() ==> currency.Defined? && r == currency.value
  {
    if currency.Truthy() then currency.value else Str(DefaultCurrency)
  }

  /**
   * The business rule: an empty id fails as an invalid account, an id ending
   * in `999` fails as blocked, and any other id succeeds with a fresh display
   * id. A failure carries a code and reason and no display id.
   */
  function Decide(accountId: string, amount: real, currency: Value, processedAt: string, draws: seq<Draw>): (r: TransferResponse)
    requires |draws| == SymbolCount
    ensures r.status == Succeeded <==> accountId != [] && !EndsWith(accountId, "999")
    ensures r.status == Succeeded ==>
              r.transactionId == Some(GenerateTransactionId(draws)) && r.failureCode.None? && r.failureReason.None?
    ensures accountId == [] ==>
              r.status == Failed && r.transactionId.None?
              && r.failureCode == Some(InvalidAccountCode) && r.failureReason == Some(InvalidAccountReason)
    ensures accountId != [] && EndsWith(accountId, "999") ==>
              r.status == Failed && r.transactionId.None?
              && r.failureCode == Some(BlockedCode) && r.failureReason == Some(BlockedReason)
    ensures r.processedAt == processedAt && r.echo == Echo(accountId, amount, currency)
  {
    var echo := Echo(accountId, amount, currency);
    if accountId == [] then
      TransferResponse(Failed, None, processedAt, Some(InvalidAccountCode), Some(InvalidAccountReason), echo)
    else if EndsWith(accountId, "999") then
      TransferResponse(Failed, None, processedAt, Some(BlockedCode), Some(BlockedReason), echo)
    else
      TransferResponse(Succeeded, Some(GenerateTransactionId(draws)), processedAt, None, None, echo)
  }

  /** The body of the `try` block, after the request body was parsed. */
  function Handle(body: Value, processedAt: string, draws: seq<Draw>): Result<Response<TransferResponse>, Thrown>
    requires |draws| == SymbolCount
  {
    var account :- Read(body, "sourceAccount");
    if !account.Truthy() || !Lookup(account.value, "id").IsString() then
      Success(BadRequest(SourceAccountIdRequired))
    else
      var transaction := Lookup(body, "transaction");
      var amount := ReadOptional(transaction, "amount");
      if !amount.IsNumber() then
        Success(BadRequest(AmountRequired))
      else
        var id := Lookup(account.value, "id").value.s;
        var currency := CurrencyOf(Lookup(transaction.value, "currency"));
        Success(Ok(Decide(Trim(id), amount.value.n, currency, processedAt, draws)))
  }

  /** The handler: `request` is the outcome of parsing the body; `processedAt` the clock reading; `draws` the random symbols. */
  function Post(request: Result<Value, Thrown>, processedAt: string, draws: seq<Draw>): (r: Response<TransferResponse>)
    requires |draws| == SymbolCount
    ensures request.Failure? ==> r == Classify(request.error)
    ensures r.Status() in {200, 400, 500}
    ensures r.Ok? ==> Trim(r.payload.echo.sourceAccountId) == r.payload.echo.sourceAccountId
    ensures r.Ok? ==> r.payload == Decide(r.payload.echo.sourceAccountId, r.payload.echo.amount, r.payload.echo.currency, processedAt, draws)
  {
    match request
    case Failure(e) => Classify(e)
    case Success(body) =>
      HandleAnswersDecision(body, processedAt, draws);
      Respond(Handle(body, processedAt, draws))
  }

  /** A 200 from the `try` block is the decision on its own echo, whose account id is already trimmed. */
  lemma {:induction false} HandleAnswersDecision(body: Value, processedAt: string, draws: seq<Draw>)
    requires |draws| == SymbolCount
    ensures var h := Handle(body, processedAt, draws);
            h.Success? && h.value.Ok? ==>
              var echo := h.value.payload.echo;
              Trim(echo.sourceAccountId) == echo.sourceAccountId
              && h.value.payload == Decide(echo.sourceAccountId, echo.amount, echo.currency, processedAt, draws)
  {
    if !body.Null? {
      var account := Lookup(body, "sourceAccount");
      if account.Truthy() && Lookup(account.value, "id").IsString() {
        TrimIdempotent(Lookup(account.value, "id").value.s);
      }
    }
  }

  /** The account id is checked first: a bad id is reported whatever the transaction holds. */
  lemma {:induction false} PostChecksAccountIdFirst(fields: map<string, Value>, processedAt: string, draws: seq<Draw>)
    requires |draws| == SymbolCount
    requires var account := Lookup(Obj(fields), "sourceAccount");
             !account.Truthy() || !Lookup(account.value, "id").IsString()
    ensures Post(Success(Obj(fields)), processedAt, draws) == BadRequest(SourceAccountIdRequired)
  {
  }

  /** With a string account id, a missing or non-number amount is reported. */
  lemma {:induction false} PostRequiresNumericAmount(fields: map<string, Value>, account: map<string, Value>, id: string, processedAt: string, draws: seq<Draw>)
    requires |draws| == SymbolCount
    requires "sourceAccount" in fields && fields["sourceAccount"] == Obj(account)
    requires "id" in account && account["id"] == Str(id)
    requires !ReadOptional(Lookup(Obj(fields), "transaction"), "amount").IsNumber()
    ensures Post(Success(Obj(fields)), processedAt, draws) == BadRequest(AmountRequired)
  {
  }

  /**
   * A request with an object `sourceAccount` holding a string `id` and an
   * object `transaction` holding a number `amount` is answered with 200 and
   * the decision on the trimmed id, whatever other fields the objects carry.
   */
  lemma {:induction false} PostDecides(fields: map<string, Value>, account: map<string, Value>, id: string,
                                       transaction: map<string, Value>, amount: real, processedAt: string, draws: seq<Draw>)
    requires |draws| == SymbolCount
    requires "sourceAccount" in fields && fields["sourceAccount"] == Obj(account)
    requires "id" in account && account["id"] == Str(id)
    requires "transaction" in fields && fields["transaction"] == Obj(transaction)
    requires "amount" in transaction && transaction["amount"] == Num(amount)
    ensures Post(Success(Obj(fields)), processedAt, draws)
         == Ok(Decide(Trim(id), amount, CurrencyOf(Lookup(Obj(transaction), "currency")), processedAt, draws))
  {
    HandleDecides(fields, account, id, transaction, amount, processedAt, draws);
  }

  /** The reads of a valid request succeed, so the `try` block returns the decision. */
  lemma {:induction false} HandleDecides(fields: map<string, Value>, account: map<string, Value>, id: string,
                                         transaction: map<string, Value>, amount: real, processedAt: string, draws: seq<Draw>)
    requires |draws| == SymbolCount
    requires "sourceAccount" in fields && fields["sourceAccount"] == Obj(account)
    requires "id" in account && account["id"] == Str(id)
    requires "transaction" in fields && fields["transaction"] == Obj(transaction)
    requires "amount" in transaction && transaction["amount"] == Num(amount)
    ensures Handle(Obj(fields), processedAt, draws)
         == Success(Ok(Decide(Trim(id), amount, CurrencyOf(Lookup(Obj(transaction), "currency")), processedAt, draws)))
  {
    var body := Obj(fields);
    assert Read(body, "sourceAccount") == Success(Defined(Obj(account)));
    assert Defined(Obj(account)).Truthy();
    assert Lookup(Obj(account), "id") == Defined(Str(id));
    assert Lookup(body, "transaction") == Defined(Obj(transaction));
    assert ReadOptional(Defined(Obj(transaction)), "amount") == Defined(Num(amount));
    assert Defined(Num(amount)).IsNumber();
  }

  /** A `null` body makes the read of `sourceAccount` throw a TypeError, answered with 500. */
  lemma {:induction false} PostNullBody(processedAt: string, draws: seq<Draw>)
    requires |draws| == SymbolCount
    ensures Post(Success(Null), processedAt, draws).Status() == 500
  {
    NullReadMessageWithoutJson("sourceAccount");
  }
}
