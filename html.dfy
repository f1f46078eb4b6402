/**
 * The HTML of the two mails the contact endpoint sends (server.js lines
 * 23-103): the shared frame `mailWrapper`, the owner's notification with
 * the escaped message, and the confirmation to the sender.
 */
module Html {

  /** `s.replace(/c/g, r)` for a single character c. */
  function Replace(s: string, c: char, r: string): string {
    if s == [] then [] else (if s[0] == c then r else [s[0]]) + Replace(s[1..], c, r)
  }

  /** The message escape of `notificationHtml`: `&` first, then `<`, then `>`. */
  function Escape(message: string): string {
    Replace(Replace(Replace(message, '&', "&amp;"), '<', "&lt;"), '>', "&gt;")
  }

  lemma {:induction false} ReplaceConcat(a: string, b: string, c: char, r: string)
    ensures Replace(a + b, c, r) == Replace(a, c, r) + Replace(b, c, r)
    decreases |a|
  {
    if a == [] {
      assert a + b == b;
    } else {
      assert (a + b)[1..] == a[1..] + b;
      ReplaceConcat(a[1..], b, c, r);
    }
  }

  /** Replacing c by a string without c leaves no c. */
  lemma {:induction false} ReplaceRemoves(s: string, c: char, r: string)
    requires c !in r
    ensures c !in Replace(s, c, r)
    decreases |s|
  {
    if s != [] {
      ReplaceRemoves(s[1..], c, r);
    }
  }

  /** Replacing c brings in no character that neither s nor r holds. */
  lemma {:induction false} ReplaceKeepsOut(s: string, c: char, r: string, d: char)
    requires d !in s && d !in r
    ensures d !in Replace(s, c, r)
    decreases |s|
  {
    if s != [] {
      ReplaceKeepsOut(s[1..], c, r, d);
    }
  }

  lemma {:induction false} ReplaceAbsent(s: string, c: char, r: string)
    requires c !in s
    ensures Replace(s, c, r) == s
    decreases |s|
  {
    if s != [] {
      ReplaceAbsent(s[1..], c, r);
    }
  }

  /** The escaped message holds no `<` and no `>`. */
  lemma EscapeHasNoBrackets(message: string)
    ensures '<' !in Escape(message) && '>' !in Escape(message)
  {
    var amp := Replace(message, '&', "&amp;");
    var lt := Replace(amp, '<', "&lt;");
    ReplaceRemoves(amp, '<', "&lt;");
    ReplaceKeepsOut(lt, '>', "&gt;", '<');
    ReplaceRemoves(lt, '>', "&gt;");
  }

  /** Escaping works character by character. */
  lemma EscapeConcat(a: string, b: string)
    ensures Escape(a + b) == Escape(a) + Escape(b)
  {
    ReplaceConcat(a, b, '&', "&amp;");
    var a1, b1 := Replace(a, '&', "&amp;"), Replace(b, '&', "&amp;");
    ReplaceConcat(a1, b1, '<', "&lt;");
    var a2, b2 := Replace(a1, '<', "&lt;"), Replace(b1, '<', "&lt;");
    ReplaceConcat(a2, b2, '>', "&gt;");
  }

  /** What one character becomes. */
  function EscapeChar(c: char): string {
    if c == '&' then "&amp;" else if c == '<' then "&lt;" else if c == '>' then "&gt;" else [c]
  }

  lemma ReplaceOne(c: char, d: char, r: string)
    ensures Replace([c], d, r) == if c == d then r else [c]
  {
    assert [c][1..] == [];
  }

  lemma EscapeOne(c: char)
    ensures Escape([c]) == EscapeChar(c)
  {
    ReplaceOne(c, '&', "&amp;");
    ReplaceAbsent("&amp;", '<', "&lt;");
    ReplaceAbsent("&amp;", '>', "&gt;");
    ReplaceOne(c, '<', "&lt;");
    ReplaceAbsent("&lt;", '>', "&gt;");
    ReplaceOne(c, '>', "&gt;");
  }

  /** Characters other than `&`, `<` and `>` pass through the escape unchanged and in place. */
  lemma {:induction false} EscapeKeepsPlain(message: string)
    requires '&' !in message && '<' !in message && '>' !in message
    ensures Escape(message) == message
    decreases |message|
  {
    if message != [] {
      assert message == [message[0]] + message[1..];
      EscapeConcat([message[0]], message[1..]);
      EscapeOne(message[0]);
      EscapeKeepsPlain(message[1..]);
    }
  }

  /** Reading entities back: `&lt;` to `<`, `&gt;` to `>`, `&amp;` to `&`. */
  function Unescape(s: string): string
    decreases |s|
  {
    if |s| >= 4 && s[0] == '&' && s[1] == 'l' && s[2] == 't' && s[3] == ';' then "<" + Unescape(s[4..])
    else if |s| >= 4 && s[0] == '&' && s[1] == 'g' && s[2] == 't' && s[3] == ';' then ">" + Unescape(s[4..])
    else if |s| >= 5 && s[0] == '&' && s[1] == 'a' && s[2] == 'm' && s[3] == 'p' && s[4] == ';' then "&" + Unescape(s[5..])
    else if s == [] then []
    else [s[0]] + Unescape(s[1..])
  }

  lemma UnescapeStep(c: char, rest: string)
    ensures Unescape(EscapeChar(c) + rest) == [c] + Unescape(rest)
  {
    var s := EscapeChar(c) + rest;
    if c == '&' {
      assert s[0] == '&' && s[1] == 'a' && s[2] == 'm' && s[3] == 'p' && s[4] == ';';
      assert s[5..] == rest;
    } else if c == '<' {
      assert s[0] == '&' && s[1] == 'l' && s[2] == 't' && s[3] == ';';
      assert s[4..] == rest;
    } else if c == '>' {
      assert s[0] == '&' && s[1] == 'g' && s[2] == 't' && s[3] == ';';
      assert s[4..] == rest;
    } else {
      assert s[0] == c && s[1..] == rest;
    }
  }

  /** Because `&` is escaped before `<` and `>`, reading the entities back recovers the message. */
  lemma {:induction false} UnescapeEscape(message: string)
    ensures Unescape(Escape(message)) == message
    decreases |message|
  {
    if message != [] {
      var c, rest := message[0], message[1..];
      assert message == [c] + rest;
      EscapeConcat([c], rest);
      EscapeOne(c);
      UnescapeEscape(rest);
      UnescapeStep(c, Escape(rest));
    }
  }

  /** The subtitle both mails carry. */
  const Subtitle: string := "Portfolio Kontaktformular"

  const MailHead: string :=
    "<!DOCTYPE html>\n<html lang=\"de\">\n<head><meta charset=\"UTF-8\"><meta name=\"viewport\" content=\"width=device-width,initial-scale=1\"></head>\n<body style=\"margin:0;padding:0;background-color:#FAFBFC;font-family:-apple-system,BlinkMacSystemFont,'Segoe UI',Arial,sans-serif;\">\n<table role=\"presentation\" width=\"100%\" cellpadding=\"0\" cellspacing=\"0\" style=\"background-color:#FAFBFC;\">\n  <tr><td align=\"center\" style=\"padding:32px 16px;\">\n    <table role=\"presentation\" width=\"600\" cellpadding=\"0\" cellspacing=\"0\" style=\"max-width:600px;width:100%;\">\n\n      <!-- Header -->\n      <tr>\n        <td style=\"background-color:#1A1D23;border-radius:8px 8px 0 0;padding:28px 32px;\">\n          <p style=\"margin:0;font-size:20px;font-weight:700;color:#2563EB;letter-spacing:-0.3px;\">Alexander Atanasov</p>\n          <p style=\"margin:4px 0 0;font-size:13px;color:#9CA3AF;\">"

  const MailMiddle: string :=
    "</p>\n        </td>\n      </tr>\n\n      <!-- Body -->\n      <tr>\n        <td style=\"background-color:#FFFFFF;padding:32px;\">\n          "

  const MailTail: string :=
    "\n        </td>\n      </tr>\n\n      <!-- Footer -->\n      <tr>\n        <td style=\"background-color:#F3F4F6;border-radius:0 0 8px 8px;padding:16px 32px;text-align:center;\">\n          <p style=\"margin:0;font-size:12px;color:#5A6170;\">info@alexander-atanasov.de &nbsp;\U{00B7}&nbsp; alexander-atanasov.de</p>\n        </td>\n      </tr>\n\n    </table>\n  </td></tr>\n</table>\n</body>\n</html>"

  const NoticeBeforeName: string :=
    "\n    <h2 style=\"margin:0 0 16px;font-size:22px;font-weight:700;color:#1A1D23;\">Neue Kontaktanfrage</h2>\n    <hr style=\"border:none;border-top:3px solid #2563EB;margin:0 0 24px;\">\n\n    <table role=\"presentation\" cellpadding=\"0\" cellspacing=\"0\" style=\"margin-bottom:24px;\">\n      <tr>\n        <td style=\"padding:4px 16px 4px 0;font-size:13px;font-weight:600;color:#5A6170;white-space:nowrap;\">Name</td>\n        <td style=\"padding:4px 0;font-size:15px;color:#1A1D23;\">"

  const NoticeBeforeEmail: string :=
    "</td>\n      </tr>\n      <tr>\n        <td style=\"padding:4px 16px 4px 0;font-size:13px;font-weight:600;color:#5A6170;white-space:nowrap;\">E-Mail</td>\n        <td style=\"padding:4px 0;font-size:15px;color:#1A1D23;\">"

  const NoticeBeforeMessage: string :=
    "</td>\n      </tr>\n    </table>\n\n    <p style=\"margin:0 0 8px;font-size:13px;font-weight:600;color:#5A6170;\">Nachricht</p>\n    <div style=\"background-color:#F8FAFF;border-left:4px solid #2563EB;border-radius:0 4px 4px 0;padding:16px 20px;\">\n      <p style=\"margin:0;font-size:15px;color:#1A1D23;line-height:1.6;white-space:pre-wrap;\">"

  const NoticeTail: string :=
    "</p>\n    </div>\n  "

  const ThanksBeforeName: string :=
    "\n    <h2 style=\"margin:0 0 16px;font-size:22px;font-weight:700;color:#1A1D23;\">Vielen Dank, "

  const ThanksTail: string :=
    "!</h2>\n    <hr style=\"border:none;border-top:3px solid #2563EB;margin:0 0 24px;\">\n\n    <p style=\"margin:0 0 12px;font-size:15px;color:#1A1D23;line-height:1.6;\">\n      Deine Nachricht ist bei mir angekommen. Ich melde mich so schnell wie m\U{00F6}glich bei dir.\n    </p>\n    <p style=\"margin:0 0 24px;font-size:14px;color:#5A6170;line-height:1.6;\">\n      In der Regel antworte ich innerhalb von 1\U{2013}2 Werktagen.\n    </p>\n\n    <p style=\"margin:0;font-size:15px;color:#1A1D23;\">Bis bald,<br>\n      <strong style=\"color:#2563EB;\">Alexander Atanasov</strong>\n    </p>\n  "

  /** `mailWrapper(headerSub, bodyHtml)`. */
  function MailWrapper(headerSub: string, bodyHtml: string): string {
    MailHead + headerSub + MailMiddle + bodyHtml + MailTail
  }

  /** `notificationHtml(name, email, message)` for a message that is a string. */
  function NotificationHtml(name: string, email: string, message: string): string {
    MailWrapper(Subtitle, NoticeBeforeName + name + NoticeBeforeEmail + email
                          + NoticeBeforeMessage + Escape(message) + NoticeTail)
  }

  /** `confirmationHtml(name)`. */
  function ConfirmationHtml(name: string): string {
    MailWrapper(Subtitle, ThanksBeforeName + name + ThanksTail)
  }

  /** Where the body starts in a wrapped mail with the given subtitle. */
  function BodyStart(headerSub: string): nat {
    |MailHead| + |headerSub| + |MailMiddle|
  }

  /** The frame is fixed: the body sits between the same opening, with the subtitle, and the same closing. */
  lemma {:induction false} MailWrapperParts(headerSub: string, bodyHtml: string)
    ensures var m := MailWrapper(headerSub, bodyHtml);
      |m| == BodyStart(headerSub) + |bodyHtml| + |MailTail|
      && m[..BodyStart(headerSub)] == MailHead + headerSub + MailMiddle
      && m[BodyStart(headerSub)..BodyStart(headerSub) + |bodyHtml|] == bodyHtml
      && m[BodyStart(headerSub) + |bodyHtml|..] == MailTail
  {
    Parts3(MailHead + headerSub + MailMiddle, bodyHtml, MailTail);
  }

  lemma Parts3(a: string, b: string, c: string)
    ensures |a + b + c| == |a| + |b| + |c|
    ensures (a + b + c)[..|a|] == a && (a + b + c)[|a|..|a| + |b|] == b && (a + b + c)[|a| + |b|..] == c
  {
  }

  /** Two wrapped mails with the same subtitle are equal exactly when their bodies are. */
  lemma MailWrapperInjective(headerSub: string, b1: string, b2: string)
    ensures MailWrapper(headerSub, b1) == MailWrapper(headerSub, b2) <==> b1 == b2
  {
    if MailWrapper(headerSub, b1) == MailWrapper(headerSub, b2) {
      MailWrapperParts(headerSub, b1);
      MailWrapperParts(headerSub, b2);
    }
  }

  /** Both mails open with the same frame and the subtitle `Portfolio Kontaktformular`. */
  lemma SameHeader(name: string, email: string, message: string, sender: string)
    ensures NotificationHtml(name, email, message)[..BodyStart(Subtitle)] == MailHead + Subtitle + MailMiddle
    ensures ConfirmationHtml(sender)[..BodyStart(Subtitle)] == MailHead + Subtitle + MailMiddle
  {
    MailWrapperParts(Subtitle, NoticeBeforeName + name + NoticeBeforeEmail + email
                               + NoticeBeforeMessage + Escape(message) + NoticeTail);
    MailWrapperParts(Subtitle, ThanksBeforeName + sender + ThanksTail);
  }

  /** Where the filled holes of a three-hole body sit. */
  lemma BodyHoles(body0: string, x1: string, body1: string, x2: string, body2: string, x3: string, body3: string)
    ensures var b := body0 + x1 + body1 + x2 + body2 + x3 + body3;
      var p1 := |body0|;
      var p2 := p1 + |x1| + |body1|;
      var p3 := p2 + |x2| + |body2|;
      |b| == p3 + |x3| + |body3| && b[p1..p1 + |x1|] == x1 && b[p2..p2 + |x2|] == x2 && b[p3..p3 + |x3|] == x3
  {
  }

  /** Where the filled holes of a wrapped three-hole body sit. */
  lemma WrappedHoles(head: string, body0: string, x1: string, body1: string, x2: string,
                     body2: string, x3: string, body3: string, tail: string)
    ensures var m := head + (body0 + x1 + body1 + x2 + body2 + x3 + body3) + tail;
      var p1 := |head| + |body0|;
      var p2 := p1 + |x1| + |body1|;
      var p3 := p2 + |x2| + |body2|;
      p3 + |x3| <= |m| && m[p1..p1 + |x1|] == x1 && m[p2..p2 + |x2|] == x2 && m[p3..p3 + |x3|] == x3
  {
    var body := body0 + x1 + body1 + x2 + body2 + x3 + body3;
    var m := head + body + tail;
    BodyHoles(body0, x1, body1, x2, body2, x3, body3);
    var p1 := |body0|;
    var p2 := p1 + |x1| + |body1|;
    var p3 := p2 + |x2| + |body2|;
    assert m[|head|..|head| + |body|] == body;
    SliceOfSlice(m, |head|, |body|, p1, p1 + |x1|);
    SliceOfSlice(m, |head|, |body|, p2, p2 + |x2|);
    SliceOfSlice(m, |head|, |body|, p3, p3 + |x3|);
  }

  lemma SliceOfSlice(m: string, start: nat, len: nat, i: nat, j: nat)
    requires start + len <= |m| && i <= j <= len
    ensures m[start..start + len][i..j] == m[start + i..start + j]
  {
    var a, b := m[start..start + len][i..j], m[start + i..start + j];
    assert |a| == |b|;
    forall k | 0 <= k < |a|
      ensures a[k] == b[k]
    {
    }
  }

  /**
   * In the notification the name and the email appear verbatim, and the
   * message only in its escaped form, each at a fixed place of the template.
   */
  lemma NotificationFields(name: string, email: string, message: string)
    ensures var m := NotificationHtml(name, email, message);
      var p1 := |MailHead + Subtitle + MailMiddle| + |NoticeBeforeName|;
      var p2 := p1 + |name| + |NoticeBeforeEmail|;
      var p3 := p2 + |email| + |NoticeBeforeMessage|;
      p3 + |Escape(message)| <= |m|
      && m[p1..p1 + |name|] == name && m[p2..p2 + |email|] == email
      && m[p3..p3 + |Escape(message)|] == Escape(message)
  {
    WrappedHoles(MailHead + Subtitle + MailMiddle, NoticeBeforeName, name, NoticeBeforeEmail, email,
                 NoticeBeforeMessage, Escape(message), NoticeTail, MailTail);
  }

  /** How often c occurs in s. */
  function Count(c: char, s: string): nat {
    if s == [] then 0 else (if s[0] == c then 1 else 0) + Count(c, s[1..])
  }

  lemma {:induction false} CountConcat(c: char, a: string, b: string)
    ensures Count(c, a + b) == Count(c, a) + Count(c, b)
    decreases |a|
  {
    if a == [] {
      assert a + b == b;
    } else {
      assert (a + b)[1..] == a[1..] + b;
      CountConcat(c, a[1..], b);
    }
  }

  lemma {:induction false} CountAbsent(c: char, s: string)
    requires c !in s
    ensures Count(c, s) == 0
    decreases |s|
  {
    if s != [] {
      CountAbsent(c, s[1..]);
    }
  }

  /** The c-count of a wrapped body with three holes: the template's own, plus that of each filling. */
  lemma CountFilled(c: char, head: string, body0: string, x1: string, body1: string, x2: string,
                    body2: string, x3: string, body3: string, tail: string)
    ensures Count(c, head + (body0 + x1 + body1 + x2 + body2 + x3 + body3) + tail)
      == Count(c, head + (body0 + [] + body1 + [] + body2 + [] + body3) + tail)
         + Count(c, x1) + Count(c, x2) + Count(c, x3)
  {
    CountBody(c, body0, x1, body1, x2, body2, x3, body3);
    CountBody(c, body0, [], body1, [], body2, [], body3);
    CountConcat(c, head + (body0 + x1 + body1 + x2 + body2 + x3 + body3), tail);
    CountConcat(c, head, body0 + x1 + body1 + x2 + body2 + x3 + body3);
    CountConcat(c, head + (body0 + [] + body1 + [] + body2 + [] + body3), tail);
    CountConcat(c, head, body0 + [] + body1 + [] + body2 + [] + body3);
  }

  lemma CountBody(c: char, body0: string, x1: string, body1: string, x2: string, body2: string, x3: string, body3: string)
    ensures Count(c, body0 + x1 + body1 + x2 + body2 + x3 + body3)
      == Count(c, body0) + Count(c, x1) + Count(c, body1) + Count(c, x2) + Count(c, body2) + Count(c, x3) + Count(c, body3)
  {
    CountConcat(c, body0 + x1 + body1 + x2 + body2 + x3, body3);
    CountConcat(c, body0 + x1 + body1 + x2 + body2, x3);
    CountConcat(c, body0 + x1 + body1 + x2, body2);
    CountConcat(c, body0 + x1 + body1, x2);
    CountConcat(c, body0 + x1, body1);
    CountConcat(c, body0, x1);
  }

  /** The number of c in a notification: the template's own, plus those in the name, the email and the escaped message. */
  lemma NotificationCount(c: char, name: string, email: string, message: string)
    ensures Count(c, NotificationHtml(name, email, message))
      == Count(c, NotificationHtml([], [], [])) + Count(c, name) + Count(c, email) + Count(c, Escape(message))
  {
    assert Escape([]) == [];
    CountFilled(c, MailHead + Subtitle + MailMiddle, NoticeBeforeName, name, NoticeBeforeEmail, email,
                NoticeBeforeMessage, Escape(message), NoticeTail, MailTail);
  }

  /**
   * Only the message is escaped: every `<` and `>` of a notification is the
   * template's own or comes verbatim from the name or the email.
   */
  lemma OnlyMessageEscaped(name: string, email: string, message: string)
    ensures Count('<', NotificationHtml(name, email, message))
      == Count('<', NotificationHtml([], [], [])) + Count('<', name) + Count('<', email)
    ensures Count('>', NotificationHtml(name, email, message))
      == Count('>', NotificationHtml([], [], [])) + Count('>', name) + Count('>', email)
  {
    EscapeHasNoBrackets(message);
    CountAbsent('<', Escape(message));
    CountAbsent('>', Escape(message));
    NotificationCount('<', name, email, message);
    NotificationCount('>', name, email, message);
  }
}
