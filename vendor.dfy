/** The vendor test applied to a device's parent `HID_NAME` property (vaydeer.c:61-62). */
module Vendor {
  import opened CString

  /** The vendor name the program looks for. */
  const VendorName: string := "Vaydeer"

  /** How many characters of `VendorName` the comparison looks at. */
  const PrefixLen: nat := 5

  /** `strncmp("Vaydeer", hidName, 5) == 0`. */
  predicate IsVendor(hidName: string) {
    StrNCmpZero(VendorName, hidName, PrefixLen)
  }

  /** The test accepts exactly the names of five or more characters that begin with "Vayde". */
  lemma IsVendorIff(hidName: string)
    ensures IsVendor(hidName) <==> |hidName| >= 5 && hidName[..5] == "Vayde"
  {
    StrNCmpZeroIff(VendorName, hidName, PrefixLen);
    assert VendorName[..PrefixLen] == "Vayde";
  }

  /** Characters after the fifth never change the verdict. */
  lemma TrailingIgnored(hidName: string, suffix: string)
    requires |hidName| >= PrefixLen
    ensures IsVendor(hidName + suffix) <==> IsVendor(hidName)
  {
    IsVendorIff(hidName);
    IsVendorIff(hidName + suffix);
    assert (hidName + suffix)[..5] == hidName[..5];
  }

  /** Names that pass and names that fail. */
  lemma Examples()
    ensures IsVendor("Vaydeer") && IsVendor("Vaydeerz-Pro") && IsVendor("VaydeX")
    ensures !IsVendor("Vayd") && !IsVendor("vaydeer") && !IsVendor("")
  {
    IsVendorIff("Vaydeer");
    IsVendorIff("Vaydeerz-Pro");
    IsVendorIff("VaydeX");
    IsVendorIff("Vayd");
    IsVendorIff("vaydeer");
    IsVendorIff("");
    assert "vaydeer"[..5] != "Vayde" by { assert "vaydeer"[0] != "Vayde"[0]; }
  }
}
