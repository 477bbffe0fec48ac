/** The outbound channels' guards: what `send_sms` of sms_service.py,
    `_send_sms` of twilio_sms_service.py, `_send_otp_sms` of twilio_otp.py
    and `send_whatsapp_booking_confirmation` of whatsapp_service.py decide
    before they reach the network, what they would send, and how they read
    the answer. Configuration read from the environment is a parameter; the
    request itself is an input (`None` for a timeout, a refused connection or
    any other exception, else the HTTP status). */
module Notify {
  import opened Wrappers
  import opened Text
  import opened Phone
  import Studio

  /** Where a send stops before any request, or the request it makes. */
  datatype Plan<+T> = Disabled | MissingCredentials | InvalidPhone | Ready(request: T)

  // ---------------------------------------------------------------------
  // sms_service.py: ActiveTrail

  /** ActiveTrail allows sender names of up to 11 characters. */
  const SenderNameLimit := 11
  const DefaultSenderName := "LISHAI SIM"

  datatype ActiveTrailConfig = ActiveTrailConfig(enabled: bool, apiKey: string, senderName: string)

  datatype SmsRequest = SmsRequest(fromName: string, content: string, phoneNumber: string)

  /** `send_sms` up to the POST: disabled, then no API key, then a phone
      that does not normalise. */
  function ActiveTrailPlan(config: ActiveTrailConfig, phone: string, message: string): (plan: Plan<SmsRequest>)
    ensures plan == Disabled <==> !config.enabled
    ensures plan == MissingCredentials <==> config.enabled && config.apiKey == []
    ensures plan == InvalidPhone <==> config.enabled && config.apiKey != [] && ToActiveTrailPhone(phone).None?
    ensures plan.Ready? ==> Some(plan.request.phoneNumber) == ToActiveTrailPhone(phone)
                            && plan.request.content == message
                            && plan.request.fromName == config.senderName[..Min(SenderNameLimit, |config.senderName|)]
                            && (|config.senderName| <= SenderNameLimit ==> plan.request.fromName == config.senderName)
  {
    if !config.enabled then Disabled
    else if config.apiKey == [] then MissingCredentials
    else
      match ToActiveTrailPhone(phone)
      case None => InvalidPhone
      case Some(p) => Ready(SmsRequest(Take(config.senderName, SenderNameLimit), message, p))
  }

  /** ActiveTrail's accepting statuses. */
  predicate ActiveTrailAccepted(status: int) {
    status == 200 || status == 201 || status == 202
  }

  /** `send_sms`: true exactly when a request was made and answered with
      an accepting status. */
  function SendSms(config: ActiveTrailConfig, phone: string, message: string, response: Option<int>): (sent: bool)
    ensures sent ==> config.enabled && config.apiKey != [] && IsValidActiveTrailTarget(phone)
    ensures sent <==> config.enabled && config.apiKey != [] && ToActiveTrailPhone(phone).Some?
                      && response.Some? && response.value in {200, 201, 202}
  {
    ActiveTrailPlan(config, phone, message).Ready? && response.Some? && ActiveTrailAccepted(response.value)
  }

  predicate IsValidActiveTrailTarget(phone: string) {
    NormalizeIsraeliPhone(phone).Some?
  }

  /** The default sender name already fits, so it is sent unchanged. */
  lemma DefaultSenderNameFits(apiKey: string, phone: string, message: string)
    requires apiKey != [] && NormalizeIsraeliPhone(phone).Some?
    ensures var plan := ActiveTrailPlan(ActiveTrailConfig(true, apiKey, DefaultSenderName), phone, message);
            plan.Ready? && plan.request.fromName == DefaultSenderName
  {
  }

  // ---------------------------------------------------------------------
  // twilio_sms_service.py and twilio_otp.py: Twilio

  datatype TwilioConfig = TwilioConfig(enabled: bool, accountSid: string, authToken: string, phoneNumber: string)

  predicate HasTwilioCredentials(config: TwilioConfig) {
    config.accountSid != [] && config.authToken != [] && config.phoneNumber != []
  }

  datatype TwilioMessage = TwilioMessage(sender: string, to: string, body: string)

  /** The guard chain both Twilio senders share, given the target the
      sender's own normaliser produced. */
  function TwilioPlan(config: TwilioConfig, target: Option<string>, body: string): (plan: Plan<TwilioMessage>)
    ensures plan == Disabled <==> !config.enabled
    ensures plan == MissingCredentials <==> config.enabled && !HasTwilioCredentials(config)
    ensures plan == InvalidPhone <==> config.enabled && HasTwilioCredentials(config) && target.None?
    ensures plan.Ready? ==> plan.request == TwilioMessage(config.phoneNumber, target.value, body)
  {
    if !config.enabled then Disabled
    else if !HasTwilioCredentials(config) then MissingCredentials
    else
      match target
      case None => InvalidPhone
      case Some(to) => Ready(TwilioMessage(config.phoneNumber, to, body))
  }

  /** `_send_sms` of twilio_sms_service.py, addressed with `normalize_phone_for_sms`. */
  function TwilioSmsPlan(config: TwilioConfig, phone: string, body: string): Plan<TwilioMessage> {
    TwilioPlan(config, SmsPhone(phone), body)
  }

  /** `_send_otp_sms` of twilio_otp.py, addressed with `normalize_israeli_phone`. */
  function TwilioOtpPlan(config: TwilioConfig, phone: string, body: string): Plan<TwilioMessage> {
    TwilioPlan(config, NormalizeIsraeliPhone(phone), body)
  }

  /** `_send_sms`' answer: true exactly when Twilio is enabled, the three
      credentials are set, `normalize_phone_for_sms` accepts the phone and
      creating the message raised nothing. */
  function TwilioSmsSent(config: TwilioConfig, phone: string, body: string, raised: bool): (sent: bool)
    ensures sent <==> config.enabled && config.accountSid != [] && config.authToken != []
                      && config.phoneNumber != [] && SmsPhone(phone).Some? && !raised
  {
    TwilioSmsPlan(config, phone, body).Ready? && !raised
  }

  /** `_send_otp_sms`' answer: the same guards, with the phone accepted by
      `normalize_israeli_phone`. */
  function TwilioOtpSent(config: TwilioConfig, phone: string, body: string, raised: bool): (sent: bool)
    ensures sent <==> config.enabled && config.accountSid != [] && config.authToken != []
                      && config.phoneNumber != [] && NormalizeIsraeliPhone(phone).Some? && !raised
  {
    TwilioOtpPlan(config, phone, body).Ready? && !raised
  }

  /** The two Twilio senders address a number written in the local trunk
      form identically, as +972 and the nine digits. */
  lemma TwilioSendersAgreeOnLocalNumbers(config: TwilioConfig, d: string, body: string)
    requires |d| == 9 && AllDigits(d) && config.enabled && HasTwilioCredentials(config)
    ensures TwilioSmsPlan(config, "0" + d, body) == TwilioOtpPlan(config, "0" + d, body)
                                                 == Ready(TwilioMessage(config.phoneNumber, "+972" + d, body))
  {
    NormalizeTrunkForm(d);
    assert TwilioOtpPlan(config, "0" + d, body) == Ready(TwilioMessage(config.phoneNumber, "+972" + d, body));
    SmsTrunkForm(d);
  }

  lemma SmsTrunkForm(d: string)
    requires |d| == 9 && AllDigits(d)
    ensures SmsPhone("0" + d) == Some("+972" + d)
  {
    SmsIsPlusWhatsApp("0" + d);
    WhatsAppTrunkForm(d);
    assert "+" + ("972" + d) == "+972" + d;
  }

  /** A bare nine-digit mobile number is refused by the SMS sender before
      any request, but addressed by the OTP sender. */
  lemma TwilioSendersDifferOnBareNumbers(config: TwilioConfig, d: string, body: string)
    requires |d| == 9 && AllDigits(d) && d[0] == '5' && config.enabled && HasTwilioCredentials(config)
    ensures TwilioSmsPlan(config, d, body) == InvalidPhone
    ensures TwilioOtpPlan(config, d, body) == Ready(TwilioMessage(config.phoneNumber, "+972" + d, body))
  {
    NormalizeBareForm(d);
    WhatsAppBareForm(d);
  }

  // ---------------------------------------------------------------------
  // whatsapp_service.py: the booking confirmation

  datatype WhatsAppConfig = WhatsAppConfig(enabled: bool, accessToken: string, phoneNumberId: string)

  /** The fields of `booking_data` the confirmation reads; `serviceHe` is
      `None` when the key is absent. */
  datatype BookingData = BookingData(name: string, phone: string, serviceHe: Option<string>,
                                     service: string, date: string, time: string)

  /** The date as the template shows it: the Hebrew weekday and the date,
      or the text as given when it does not parse as YYYY-MM-DD. */
  datatype DateText = DayAndDate(dayName: string, day: int) | RawDate(text: string)

  datatype WhatsAppMessage = WhatsAppMessage(to: string, name: string, service: string, date: DateText, time: string)

  /** `days_hebrew`, indexed by `weekday()` (Monday first). */
  const HebrewDaysFromMonday: seq<string> := ["שני", "שלישי", "רביעי", "חמישי", "שישי", "שבת", "ראשון"]
  /** The same names in the studio's Sunday-first order. */
  const HebrewDaysFromSunday: seq<string> := ["ראשון", "שני", "שלישי", "רביעי", "חמישי", "שישי", "שבת"]

  /** `parsed` is the day `strptime` read from `date`, if it could. */
  function FormattedDate(date: string, parsed: Option<int>): (r: DateText)
    ensures parsed.None? ==> r == RawDate(date)
    ensures parsed.Some? ==> r.DayAndDate? && r.day == parsed.value
                             && r.dayName == HebrewDaysFromSunday[Studio.StudioWeekday(parsed.value)]
  {
    match parsed
    case None => RawDate(date)
    case Some(day) =>
      DayNameFollowsStudioWeek(day);
      DayAndDate(HebrewDaysFromMonday[Studio.PythonWeekday(day)], day)
  }

  /** The Monday-first list indexed by `weekday()` names the same day as
      the Sunday-first list indexed by the studio's weekday. */
  lemma DayNameFollowsStudioWeek(day: int)
    ensures HebrewDaysFromMonday[Studio.PythonWeekday(day)] == HebrewDaysFromSunday[Studio.StudioWeekday(day)]
  {
    var w := Studio.PythonWeekday(day);
    assert Studio.StudioWeekday(day) == (w + 1) % 7;
    if w == 6 {
      assert Studio.StudioWeekday(day) == 0;
    } else {
      assert Studio.StudioWeekday(day) == w + 1;
    }
  }

  /** `booking_data.get("service_he", booking_data.get("service", ""))`. */
  function ServiceName(data: BookingData): string {
    if data.serviceHe.Some? then data.serviceHe.value else data.service
  }

  /** The send up to the POST: disabled, then missing token or phone-number
      id, then a phone `format_phone_for_whatsapp` refuses. */
  function WhatsAppPlan(config: WhatsAppConfig, data: BookingData, parsed: Option<int>): (plan: Plan<WhatsAppMessage>)
    ensures plan == Disabled <==> !config.enabled
    ensures plan == MissingCredentials <==> config.enabled && (config.accessToken == [] || config.phoneNumberId == [])
    ensures plan == InvalidPhone <==> config.enabled && config.accessToken != [] && config.phoneNumberId != []
                                      && WhatsAppPhone(data.phone).None?
    ensures plan.Ready? ==> Some(plan.request.to) == WhatsAppPhone(data.phone)
                            && plan.request.date == FormattedDate(data.date, parsed)
                            && plan.request.name == data.name && plan.request.time == data.time
  {
    if !config.enabled then Disabled
    else if config.accessToken == [] || config.phoneNumberId == [] then MissingCredentials
    else
      match WhatsAppPhone(data.phone)
      case None => InvalidPhone
      case Some(to) => Ready(WhatsAppMessage(to, data.name, ServiceName(data), FormattedDate(data.date, parsed), data.time))
  }

  /** The Cloud API's accepting statuses: 200 and 201, not 202. */
  predicate WhatsAppAccepted(status: int) {
    status == 200 || status == 201
  }

  function SendWhatsAppConfirmation(config: WhatsAppConfig, data: BookingData, parsed: Option<int>,
                                    response: Option<int>): (sent: bool)
    ensures sent <==> config.enabled && config.accessToken != [] && config.phoneNumberId != []
                      && WhatsAppPhone(data.phone).Some? && response.Some? && (response.value == 200 || response.value == 201)
  {
    WhatsAppPlan(config, data, parsed).Ready? && response.Some? && WhatsAppAccepted(response.value)
  }

  /** With both senders ready to post, an answer of 202 makes the SMS count
      as sent and the WhatsApp confirmation as failed; every answer that
      sends the confirmation also sends the SMS. */
  lemma AcceptedStatusesDiffer(smsConfig: ActiveTrailConfig, phone: string, message: string,
                               config: WhatsAppConfig, data: BookingData, parsed: Option<int>)
    requires ActiveTrailPlan(smsConfig, phone, message).Ready? && WhatsAppPlan(config, data, parsed).Ready?
    ensures SendSms(smsConfig, phone, message, Some(202)) && !SendWhatsAppConfirmation(config, data, parsed, Some(202))
    ensures forall s :: SendWhatsAppConfirmation(config, data, parsed, Some(s)) ==> SendSms(smsConfig, phone, message, Some(s))
  {
  }
}
