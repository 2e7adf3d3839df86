/**
 * The door scanner page: reducing a scanned payload to an access token, the length checks,
 * the manual short-code path, and the page's scan state machine. The guest lookup, the
 * duplicate check and the check-in insert are commented out in this page, so a payload is
 * judged by the length of its token alone.
 */
module Scanner {
  import opened Wrappers
  import opened Text

  datatype ScanState = Idle | Scanning | Success | Error | Duplicate

  /** The guest card shown under a result (never filled in by the live code). */
  datatype ScanResult = ScanResult(guestName: string, category: string, checkedInAt: Option<string>)

  /** Tokens shorter than this are rejected. */
  const MinTokenLength: nat := 8

  /** Manual codes must have exactly this length; the input box is clamped to it. */
  const ShortCodeLength: nat := 8

  function Last<T>(s: seq<T>): T
    requires s != []
  {
    s[|s| - 1]
  }

  /** The last piece of a split is the suffix after the last separator. */
  lemma {:induction false} SplitLast(s: string, sep: char)
    ensures var t := Last(Split(s, sep));
            |t| <= |s| && t == s[|s| - |t|..]
            && (sep in s ==> |t| < |s| && s[|s| - |t| - 1] == sep)
            && (sep !in s ==> t == s)
    decreases |s|
  {
    if s == [] {
      return;
    }
    var tail := s[1..];
    var rest := Split(tail, sep);
    if s[0] != sep && sep !in tail {
      SplitNoSep(s, sep);
      return;
    }
    // The last piece of `s` is the last piece of its tail.
    if s[0] != sep {
      SplitNoSep1(tail, sep);
    }
    assert Last(Split(s, sep)) == Last(rest);
    SplitLast(tail, sep);
    var t := Last(rest);
    assert tail[|tail| - |t|..] == s[|s| - |t|..];
    if sep !in tail {
      assert t == tail && s[|s| - |t| - 1] == s[0];
    } else {
      assert s[|s| - |t| - 1] == tail[|tail| - |t| - 1];
    }
  }

  lemma {:induction false} SplitNoSep1(s: string, sep: char)
    requires sep in s
    ensures |Split(s, sep)| > 1
    decreases |s|
  {
    if s[0] != sep {
      SplitNoSep1(s[1..], sep);
    }
  }

  /** `processQRCode`'s token: with a "/" in the payload, the text after the last "/"
      (`split("/").pop() || ""`); otherwise the payload unchanged. */
  function ExtractToken(qrData: string): string
  {
    if '/' in qrData then Last(Split(qrData, '/')) else qrData
  }

  /** The token holds no "/" and is a suffix of the payload: the text after its last "/"
      when there is one, and the whole payload otherwise. */
  lemma ExtractTokenShape(qrData: string)
    ensures var token := ExtractToken(qrData);
            '/' !in token
            && |token| <= |qrData| && token == qrData[|qrData| - |token|..]
            && ('/' in qrData ==> |token| < |qrData| && qrData[|qrData| - |token| - 1] == '/')
            && ('/' !in qrData ==> token == qrData)
  {
    SplitLast(qrData, '/');
    if '/' in qrData {
      var pieces := Split(qrData, '/');
      assert Last(pieces) == pieces[|pieces| - 1];
    }
  }

  /** A URL or path ending in "/" + t yields t. */
  lemma ExtractAfterSlash(prefix: string, t: string)
    requires '/' !in t
    ensures ExtractToken(prefix + "/" + t) == t
  {
    var s := prefix + "/" + t;
    ExtractTokenShape(s);
    var tok := ExtractToken(s);
    assert s[|prefix|] == '/';
    assert s[|s| - |t|..] == t;
  }

  /** `!token || token.length < 8`. */
  predicate TokenRejected(token: string) {
    token == [] || |token| < MinTokenLength
  }

  /** Where `processQRCode` ends for a payload. With the lookup commented out, only the token's
      length matters; "duplicate" is never reached. */
  function ScanOutcome(qrData: string): (r: ScanState)
    ensures r == Success || r == Error
  {
    if TokenRejected(ExtractToken(qrData)) then Error else Success
  }

  /** A payload succeeds exactly when its token has at least 8 characters. */
  lemma ScanOutcomeIff(qrData: string)
    ensures ScanOutcome(qrData) == Success <==> |ExtractToken(qrData)| >= MinTokenLength
    ensures ScanOutcome(qrData) != Duplicate
  {
  }

  /** `manualCode.trim().toUpperCase()`. */
  function NormalizeManualCode(manual: string): (code: string)
    ensures |code| <= |manual|
    ensures NoLowerAscii(code)
  {
    TrimLength(manual);
    ToUpper(Trim(manual))
  }

  /** The input box's `onChange`: `value.slice(0, 8).toUpperCase()`. */
  function ClampManualInput(value: string): (r: string)
    ensures |r| <= ShortCodeLength
    ensures NoLowerAscii(r)
    ensures |value| <= ShortCodeLength ==> r == ToUpper(value)
  {
    ToUpper(Take(value, ShortCodeLength))
  }

  /** `processManualCode` as a decision: None when the code is refused before any scan,
      else the state the scan ends in. */
  function ManualOutcome(manual: string): Option<ScanState>
  {
    var code := NormalizeManualCode(manual);
    if |code| != ShortCodeLength then None else Some(ScanOutcome(code))
  }

  /** A manual code is scanned only when it is 8 characters after trimming, and then succeeds
      exactly when it holds no "/" (a "/" makes the page extract a shorter token). */
  lemma ManualOutcomeIff(manual: string)
    ensures ManualOutcome(manual).Some? <==> |NormalizeManualCode(manual)| == ShortCodeLength
    ensures ManualOutcome(manual) == Some(Success)
        <==> |NormalizeManualCode(manual)| == ShortCodeLength && '/' !in NormalizeManualCode(manual)
  {
    var code := NormalizeManualCode(manual);
    if |code| == ShortCodeLength && '/' in code {
      ExtractTokenShape(code);
      var tok := ExtractToken(code);
      assert |tok| < |code|;
    }
  }

  /** The scanner page's state. */
  class ScannerPage {
    var scanState: ScanState
    var lastScan: Option<ScanResult>
    var isScanning: bool
    var showManualEntry: bool
    var manualCode: string
    var isProcessingManual: bool

    /** What the live code keeps true: no result card is ever recorded, the manual box
        holds at most 8 upper-case characters, and no manual scan is left in progress. */
    ghost predicate Valid()
      reads this`lastScan, this`manualCode, this`isProcessingManual
    {
      lastScan == None && |manualCode| <= ShortCodeLength && NoLowerAscii(manualCode)
      && !isProcessingManual
    }

    constructor ()
      ensures Valid()
      ensures scanState == Idle && !isScanning && !showManualEntry && manualCode == ""
    {
      scanState := Idle;
      lastScan := None;
      isScanning := false;
      showManualEntry := false;
      manualCode := "";
      isProcessingManual := false;
    }

    /** `startScanning`: the camera either starts (decode events follow) or fails. */
    method StartScanning(cameraStarts: bool)
      requires Valid()
      modifies this
      ensures Valid()
      ensures cameraStarts ==> scanState == Scanning && isScanning
      ensures !cameraStarts ==> scanState == Error && !isScanning
      ensures showManualEntry == old(showManualEntry) && manualCode == old(manualCode)
    {
      isScanning := true;
      scanState := Scanning;
      if !cameraStarts {
        isScanning := false;
        scanState := Error;
      }
    }

    /** `processQRCode(qrData)`. */
    method ProcessQRCode(qrData: string)
      modifies this`scanState
      ensures scanState == ScanOutcome(qrData)
    {
      scanState := Scanning;
      var token := qrData;
      if '/' in qrData {
        token := Last(Split(qrData, '/'));
      }
      if token == [] || |token| < MinTokenLength {
        scanState := Error;
        return;
      }
      scanState := Success;
    }

    /** The camera's decode callback: stop the camera, clear `isScanning`, then process. */
    method OnDecode(decodedText: string)
      requires Valid()
      modifies this`isScanning, this`scanState
      ensures Valid()
      ensures !isScanning && scanState == ScanOutcome(decodedText)
    {
      isScanning := false;
      ProcessQRCode(decodedText);
    }

    /** `stopScanning`. */
    method StopScanning()
      requires Valid()
      modifies this`isScanning
      ensures Valid() && !isScanning
    {
      isScanning := false;
    }

    /** The manual-entry toggle button. */
    method ToggleManualEntry()
      requires Valid()
      modifies this`showManualEntry
      ensures Valid() && showManualEntry == !old(showManualEntry)
    {
      showManualEntry := !showManualEntry;
    }

    /** Typing into the manual-entry box. */
    method EditManualCode(value: string)
      requires Valid()
      modifies this`manualCode
      ensures Valid() && manualCode == ClampManualInput(value)
    {
      manualCode := ToUpper(Take(value, ShortCodeLength));
    }

    /** `processManualCode`: refuse a code that is not 8 characters after trimming; otherwise
        scan it and clear the manual entry. Returns whether it was scanned. */
    method ProcessManualCode() returns (scanned: bool)
      requires Valid()
      modifies this
      ensures Valid()
      ensures scanned <==> ManualOutcome(old(manualCode)).Some?
      ensures !scanned ==> (scanState == old(scanState) && manualCode == old(manualCode)
                            && showManualEntry == old(showManualEntry) && isScanning == old(isScanning))
      ensures scanned ==> (Some(scanState) == ManualOutcome(old(manualCode)) && manualCode == ""
                           && !showManualEntry && isScanning == old(isScanning))
    {
      var code := ToUpper(Trim(manualCode));
      if |code| != ShortCodeLength {
        return false;
      }
      isProcessingManual := true;
      ProcessQRCode(code);
      isProcessingManual := false;
      manualCode := "";
      showManualEntry := false;
      scanned := true;
    }

    /** `resetScanner`: back to idle from any state. */
    method ResetScanner()
      requires Valid()
      modifies this
      ensures Valid()
      ensures scanState == Idle && lastScan == None && !isScanning && !showManualEntry && manualCode == ""
    {
      StopScanning();
      scanState := Idle;
      lastScan := None;
      showManualEntry := false;
      manualCode := "";
    }
  }
}
