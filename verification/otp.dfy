/** Phone verification by one-time code: the `/verify-phone` handler of the
    authentication router and its live copy in the server. The process-wide
    `otpCodes` map and `registeredPhones` set are threaded through as an
    explicit state; the clock, the random code and the outcome of the SMS
    delivery are parameters. */
module Otp {
  import opened Common
  import Phone

  /** Codes are valid for five minutes, counted in milliseconds. */
  const ExpiryMinutes: int := 5
  const MinuteMs: int := 60 * 1000

  /** A code is rejected once more than this many verifications ran. */
  const MaxAttempts: int := 3

  const Digit: string := "0123456789"

  /** The two actions; a request without one sends a code. */
  const SendAction: string := "send_otp"
  const VerifyAction: string := "verify_otp"

  /** `generateOTP(length)`: each character is the digit drawn for its
      position (`Math.floor(Math.random() * 10)`). */
  method GenerateOtp(length: nat, draws: seq<int>) returns (otp: string)
    requires |draws| == length
    requires forall i :: 0 <= i < |draws| ==> 0 <= draws[i] < 10
    ensures |otp| == length
    ensures Phone.AllDigits(otp)
    ensures forall i :: 0 <= i < length ==> otp[i] == Digit[draws[i]]
  {
    otp := "";
    var i := 0;
    while i < length
      invariant 0 <= i <= length
      invariant |otp| == i
      invariant forall j :: 0 <= j < i ==> otp[j] == Digit[draws[j]]
      invariant Phone.AllDigits(otp)
    {
      otp := otp + [Digit[draws[i]]];
      i := i + 1;
    }
  }

  /** `isExpired(timestamp, minutes)`: strictly later than the deadline. */
  predicate IsExpired(createdAt: int, minutes: int, now: int) {
    now > createdAt + minutes * MinuteMs
  }

  datatype OtpRecord = OtpRecord(code: string, createdAt: int, expiryTime: int, attempts: int)

  /** `otpCodes` (formatted phone to pending code) and `registeredPhones`. */
  datatype State = State(codes: map<string, OtpRecord>, registered: set<string>)

  datatype SendOutcome =
    | Sent(phone: string, expiryMinutes: int, isRegistered: bool)
    | DeliveryFailed

  datatype VerifyOutcome =
    | Verified(phone: string, isNewCustomer: bool)
    | OtpRequired
    | NoPendingCode
    | CodeExpired
    | AttemptsExceeded
    | CodeMismatch

  /** The `send_otp` branch: store a fresh record (replacing any earlier
      one), then hand the code to the SMS channel. The record is stored
      before delivery, so a failed delivery leaves it in place. */
  function Send(st: State, phone: string, code: string, now: int, delivered: bool)
    : (res: (State, SendOutcome))
    ensures res.0.codes == st.codes[phone := OtpRecord(code, now, now + ExpiryMinutes * MinuteMs, 0)]
    ensures res.0.registered == st.registered
    ensures delivered <==> res.1.Sent?
    ensures res.1.Sent? ==> res.1.phone == phone && res.1.isRegistered == (phone in st.registered)
  {
    var st' := st.(codes := st.codes[phone := OtpRecord(code, now, now + ExpiryMinutes * MinuteMs, 0)]);
    if delivered then (st', Sent(phone, ExpiryMinutes, phone in st.registered))
    else (st', DeliveryFailed)
  }

  /** The `verify_otp` branch, in the handler's order: the attempt count
      goes up before anything else is looked at; then expiry and the
      attempt ceiling, both of which discard the record; then the code
      comparison, which keeps the record; then success. */
  function Verify(st: State, phone: string, otp: Option<string>, now: int)
    : (res: (State, VerifyOutcome))
    // Missing input or no pending code: nothing changes.
    ensures !Truthy(otp) ==> res == (st, OtpRequired)
    ensures Truthy(otp) && phone !in st.codes ==> res == (st, NoPendingCode)
    // Every other outcome saw the record and counted the attempt.
    ensures Truthy(otp) && phone in st.codes ==>
      var rec := st.codes[phone];
      && (IsExpired(rec.createdAt, ExpiryMinutes, now) <==> res.1 == CodeExpired)
      && ((!IsExpired(rec.createdAt, ExpiryMinutes, now) && rec.attempts + 1 > MaxAttempts)
            <==> res.1 == AttemptsExceeded)
      && (res.1 == CodeMismatch <==>
            (!IsExpired(rec.createdAt, ExpiryMinutes, now) && rec.attempts + 1 <= MaxAttempts
             && rec.code != otp.value))
      && (res.1 == CodeMismatch ==> res.0.codes == st.codes[phone := rec.(attempts := rec.attempts + 1)])
      && (res.1 != CodeMismatch ==> res.0.codes == st.codes - {phone})
    ensures res.1.Verified? <==>
      Truthy(otp) && phone in st.codes && !IsExpired(st.codes[phone].createdAt, ExpiryMinutes, now)
      && st.codes[phone].attempts + 1 <= MaxAttempts && st.codes[phone].code == otp.value
    ensures res.1.Verified? ==> res.0.registered == st.registered + {phone} && res.1.phone == phone
    ensures !res.1.Verified? ==> res.0.registered == st.registered
  {
    if !Truthy(otp) then (st, OtpRequired)
    else if phone !in st.codes then (st, NoPendingCode)
    else
      var rec := st.codes[phone];
      var bumped := rec.(attempts := rec.attempts + 1);
      if IsExpired(bumped.createdAt, ExpiryMinutes, now) then
        (st.(codes := st.codes - {phone}), CodeExpired)
      else if bumped.attempts > MaxAttempts then
        (st.(codes := st.codes - {phone}), AttemptsExceeded)
      else if bumped.code != otp.value then
        (st.(codes := st.codes[phone := bumped]), CodeMismatch)
      else
        var st' := State(st.codes - {phone}, st.registered + {phone});
        // `isNewCustomer` is read AFTER the phone was added.
        (st', Verified(phone, phone !in st'.registered))
  }

  /** The reported `isNewCustomer` flag is false on every success, even for
      a phone that was not registered before the call. */
  lemma NewCustomerFlagAlwaysFalse(st: State, phone: string, otp: Option<string>, now: int)
    requires Verify(st, phone, otp, now).1.Verified?
    ensures !Verify(st, phone, otp, now).1.isNewCustomer
    ensures phone in Verify(st, phone, otp, now).0.registered
  {
  }

  /** Every stored record has been tried at most three times: a send
      starts at zero and a verification that would push the count past
      the ceiling discards the record. */
  ghost predicate AttemptsBounded(st: State) {
    forall p :: p in st.codes ==> 0 <= st.codes[p].attempts <= MaxAttempts
  }

  lemma SendKeepsAttemptsBounded(st: State, phone: string, code: string, now: int, delivered: bool)
    requires AttemptsBounded(st)
    ensures AttemptsBounded(Send(st, phone, code, now, delivered).0)
  {
  }

  lemma VerifyKeepsAttemptsBounded(st: State, phone: string, otp: Option<string>, now: int)
    requires AttemptsBounded(st)
    ensures AttemptsBounded(Verify(st, phone, otp, now).0)
  {
  }

  /** A correct, unexpired code on the first try succeeds and consumes the
      record, so the same code presented again finds nothing pending. */
  lemma CorrectCodeOnce(st: State, phone: string, code: string, t0: int, t1: int, t2: int, delivered: bool)
    requires code != ""
    requires t0 <= t1 <= t0 + ExpiryMinutes * MinuteMs
    ensures var s1 := Send(st, phone, code, t0, delivered).0;
            var (s2, out) := Verify(s1, phone, Some(code), t1);
            && out == Verified(phone, false)
            && phone !in s2.codes
            && Verify(s2, phone, Some(code), t2) == (s2, NoPendingCode)
  {
  }

  /** For one issued code, three wrong codes are each rejected as a
      mismatch and the fourth verification fails on the attempt ceiling,
      whatever code it carries, while the code is still fresh. */
  lemma FourthAttemptAlwaysFails(
    st: State, phone: string, code: string, t0: int, delivered: bool,
    w1: string, w2: string, w3: string, guess: string, t1: int, t2: int, t3: int, t4: int)
    requires w1 != "" && w2 != "" && w3 != "" && guess != ""
    requires w1 != code && w2 != code && w3 != code
    requires t0 <= t1 && t1 <= t2 && t2 <= t3 && t3 <= t4 && t4 <= t0 + ExpiryMinutes * MinuteMs
    ensures var s0 := Send(st, phone, code, t0, delivered).0;
            var (s1, o1) := Verify(s0, phone, Some(w1), t1);
            var (s2, o2) := Verify(s1, phone, Some(w2), t2);
            var (s3, o3) := Verify(s2, phone, Some(w3), t3);
            var (s4, o4) := Verify(s3, phone, Some(guess), t4);
            && o1 == CodeMismatch && o2 == CodeMismatch && o3 == CodeMismatch
            && o4 == AttemptsExceeded && phone !in s4.codes
  {
    var s0 := Send(st, phone, code, t0, delivered).0;
    var (s1, o1) := Verify(s0, phone, Some(w1), t1);
    assert s1.codes[phone].attempts == 1;
    var (s2, o2) := Verify(s1, phone, Some(w2), t2);
    assert s2.codes[phone].attempts == 2;
    var (s3, o3) := Verify(s2, phone, Some(w3), t3);
    assert s3.codes[phone].attempts == 3;
  }

  /** Once the five minutes are over, any verification of the code fails
      as expired and discards it, whatever code is presented and however
      many attempts were made. */
  lemma ExpiredAlwaysFails(st: State, phone: string, otp: string, now: int)
    requires otp != "" && phone in st.codes
    requires now > st.codes[phone].createdAt + ExpiryMinutes * MinuteMs
    ensures Verify(st, phone, Some(otp), now) == (st.(codes := st.codes - {phone}), CodeExpired)
  {
  }

  /** A verification request as the handlers read it from the body. */
  datatype PhoneRequest = PhoneRequest(phone: Option<string>, action: Option<string>, otp: Option<string>)

  datatype Response =
    | PhoneRequired
    | InvalidPhone
    | ValidationFailed
    | SendReply(send: SendOutcome)
    | VerifyReply(verify: VerifyOutcome)
    | NoReply

  /** The live `/api/verify-phone` handler of the server. The raw phone must
      be present and format to a valid number before any code is read or
      written; `action` defaults to "send_otp"; an unknown action falls
      off the end of the handler and nothing is answered. */
  function LiveHandle(st: State, req: PhoneRequest, code: string, now: int, delivered: bool)
    : (res: (State, Response))
    ensures !Truthy(req.phone) ==> res == (st, PhoneRequired)
    ensures Truthy(req.phone) && !Phone.IsValid(Phone.Format(req.phone.value)) ==> res == (st, InvalidPhone)
    ensures res.1.SendReply? || res.1.VerifyReply? ==>
      Truthy(req.phone) && Phone.IsValid(Phone.Format(req.phone.value))
    ensures res.0.codes.Keys <= st.codes.Keys + {Phone.Format(req.phone.GetOr(""))}
    ensures Truthy(req.phone) && Phone.IsValid(Phone.Format(req.phone.value)) ==>
      var phone := Phone.Format(req.phone.value);
      var action := req.action.GetOr(SendAction);
      && (action == SendAction ==>
            var sent := Send(st, phone, code, now, delivered);
            res == (sent.0, SendReply(sent.1)))
      && (action == VerifyAction ==>
            var checked := Verify(st, phone, req.otp, now);
            res == (checked.0, VerifyReply(checked.1)))
      && (action !in {SendAction, VerifyAction} ==> res == (st, NoReply))
  {
    if !Truthy(req.phone) then (st, PhoneRequired)
    else
      var phone := Phone.Format(req.phone.value);
      if !Phone.IsValid(phone) then (st, InvalidPhone)
      else Dispatch(st, phone, req.action.GetOr(SendAction), req.otp, code, now, delivered, NoReply)
  }

  /** The `/verify-phone` handler of the authentication router. Its request
      validators reject an empty or invalid phone and an action other than
      the two known ones before the handler body runs. */
  function RouterHandle(st: State, req: PhoneRequest, code: string, now: int, delivered: bool)
    : (res: (State, Response))
    ensures !Truthy(req.phone) ==> res == (st, ValidationFailed)
    ensures req.action.Some? && req.action.value !in {SendAction, VerifyAction} ==> res == (st, ValidationFailed)
    ensures res.1 != NoReply
    ensures Truthy(req.phone) && !Phone.IsValid(Phone.Format(req.phone.value)) ==> res == (st, ValidationFailed)
    ensures Truthy(req.phone) && Phone.IsValid(Phone.Format(req.phone.value)) ==>
      var phone := Phone.Format(req.phone.value);
      && (req.action.None? || req.action == Some(SendAction) ==>
            var sent := Send(st, phone, code, now, delivered);
            res == (sent.0, SendReply(sent.1)))
      && (req.action == Some(VerifyAction) ==>
            var checked := Verify(st, phone, req.otp, now);
            res == (checked.0, VerifyReply(checked.1)))
  {
    if !Truthy(req.phone) || !Phone.IsValid(Phone.Format(req.phone.value)) then (st, ValidationFailed)
    else if req.action.Some? && req.action.value !in {SendAction, VerifyAction} then (st, ValidationFailed)
    else
      var phone := Phone.Format(req.phone.value);
      Dispatch(st, phone, req.action.GetOr(SendAction), req.otp, code, now, delivered, ValidationFailed)
  }

  /** The shared action switch of both handlers; `fallThrough` is what an
      action other than the two known ones yields. */
  function Dispatch(st: State, phone: string, action: string, otp: Option<string>,
                    code: string, now: int, delivered: bool, fallThrough: Response)
    : (res: (State, Response))
    ensures res.0.codes.Keys <= st.codes.Keys + {phone}
  {
    if action == SendAction then
      var (st', out) := Send(st, phone, code, now, delivered);
      (st', SendReply(out))
    else if action == VerifyAction then
      var (st', out) := Verify(st, phone, otp, now);
      (st', VerifyReply(out))
    else (st, fallThrough)
  }

  /** The two handlers agree on every request the router's validators let
      through; the live server differs only in answering nothing for an
      unknown action and in its error for a bad phone. */
  lemma HandlersAgree(st: State, req: PhoneRequest, code: string, now: int, delivered: bool)
    requires Truthy(req.phone) && Phone.IsValid(Phone.Format(req.phone.value))
    requires req.action.None? || req.action.value in {SendAction, VerifyAction}
    ensures LiveHandle(st, req, code, now, delivered) == RouterHandle(st, req, code, now, delivered)
  {
  }

  /** Every phone with a pending code, and every registered phone, is a
      canonical mobile number. */
  ghost predicate KeysCanonical(st: State) {
    && (forall p :: p in st.codes ==> Phone.IsValid(p))
    && (forall p :: p in st.registered ==> Phone.IsValid(p))
  }

  /** The live handler only ever stores or registers canonical numbers. */
  lemma LiveHandleKeepsKeysCanonical(st: State, req: PhoneRequest, code: string, now: int, delivered: bool)
    requires KeysCanonical(st)
    ensures KeysCanonical(LiveHandle(st, req, code, now, delivered).0)
  {
    if Truthy(req.phone) {
      var phone := Phone.Format(req.phone.value);
      if Phone.IsValid(phone) {
        var action := req.action.GetOr(SendAction);
        if action == VerifyAction {
          var (st', out) := Verify(st, phone, req.otp, now);
          assert st'.registered <= st.registered + {phone};
        }
      }
    }
  }
}
