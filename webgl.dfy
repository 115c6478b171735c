/** WebGL fingerprinting defense: every identity reports one of three common GPU
    profiles, chosen by its seed, and `readPixels` data gets a small
    deterministic per-byte noise. The hasher that makes the noise is a parameter:
    any function of the seed and the byte index. */
module WebGL {
  import opened Ints

  datatype WebGLProfile = WebGLProfile(
    renderer: string,
    vendor: string,
    unmaskedRenderer: string,
    unmaskedVendor: string,
    maxTextureSize: i32,
    maxViewportDims: (i32, i32),
    maxVertexAttribs: i32,
    maxVertexUniformVectors: i32,
    maxFragmentUniformVectors: i32,
    maxVaryingVectors: i32,
    extensions: seq<string>)

  /** The extensions of the Intel profile on Windows; the NVIDIA profile lacks
      `WEBGL_debug_shaders`, the Mesa profile lacks five more. */
  const INTEL_EXTENSIONS: seq<string> := [
    "ANGLE_instanced_arrays", "EXT_blend_minmax", "EXT_color_buffer_half_float",
    "EXT_float_blend", "EXT_frag_depth", "EXT_shader_texture_lod",
    "EXT_texture_filter_anisotropic", "OES_element_index_uint",
    "OES_standard_derivatives", "OES_texture_float", "OES_texture_float_linear",
    "OES_texture_half_float", "OES_texture_half_float_linear",
    "OES_vertex_array_object", "WEBGL_color_buffer_float",
    "WEBGL_compressed_texture_s3tc", "WEBGL_debug_renderer_info",
    "WEBGL_debug_shaders", "WEBGL_depth_texture", "WEBGL_draw_buffers",
    "WEBGL_lose_context"]

  const NVIDIA_EXTENSIONS: seq<string> := [
    "ANGLE_instanced_arrays", "EXT_blend_minmax", "EXT_color_buffer_half_float",
    "EXT_float_blend", "EXT_frag_depth", "EXT_shader_texture_lod",
    "EXT_texture_filter_anisotropic", "OES_element_index_uint",
    "OES_standard_derivatives", "OES_texture_float", "OES_texture_float_linear",
    "OES_texture_half_float", "OES_texture_half_float_linear",
    "OES_vertex_array_object", "WEBGL_color_buffer_float",
    "WEBGL_compressed_texture_s3tc", "WEBGL_debug_renderer_info",
    "WEBGL_depth_texture", "WEBGL_draw_buffers", "WEBGL_lose_context"]

  const MESA_EXTENSIONS: seq<string> := [
    "ANGLE_instanced_arrays", "EXT_blend_minmax", "EXT_frag_depth",
    "EXT_shader_texture_lod", "EXT_texture_filter_anisotropic",
    "OES_element_index_uint", "OES_standard_derivatives", "OES_texture_float",
    "OES_texture_float_linear", "OES_texture_half_float",
    "OES_texture_half_float_linear", "OES_vertex_array_object",
    "WEBGL_depth_texture", "WEBGL_draw_buffers", "WEBGL_lose_context"]

  /** The anonymity set: all three report the same masked renderer and vendor. */
  const WEBGL_PROFILES: seq<WebGLProfile> := [
    WebGLProfile("WebKit WebGL", "WebKit",
      "ANGLE (Intel, Intel(R) UHD Graphics 620 Direct3D11 vs_5_0 ps_5_0)",
      "Google Inc. (Intel)",
      16384, (16384, 16384), 16, 4096, 1024, 30, INTEL_EXTENSIONS),
    WebGLProfile("WebKit WebGL", "WebKit",
      "ANGLE (NVIDIA, NVIDIA GeForce GTX 1060 Direct3D11 vs_5_0 ps_5_0)",
      "Google Inc. (NVIDIA)",
      16384, (32767, 32767), 16, 4096, 1024, 31, NVIDIA_EXTENSIONS),
    WebGLProfile("WebKit WebGL", "WebKit",
      "Mesa DRI Intel(R) UHD Graphics 620 (KBL GT2)",
      "Intel Open Source Technology Center",
      16384, (16384, 16384), 16, 4096, 1024, 31, MESA_EXTENSIONS)]

  datatype WebGLDefense = WebGLDefense(seed: u64, profile: WebGLProfile)

  /** `WebGLDefense::new`: the profile is the seed modulo the number of profiles. */
  function New(seed: u64): (d: WebGLDefense)
    ensures d.seed == seed && d.profile in WEBGL_PROFILES
  {
    WebGLDefense(seed, WEBGL_PROFILES[seed % |WEBGL_PROFILES|])
  }

  /** Seeds equal modulo three select the same profile. */
  lemma NewBySeedClass(s1: u64, s2: u64)
    requires s1 % 3 == s2 % 3
    ensures New(s1).profile == New(s2).profile
  {
  }

  function Renderer(d: WebGLDefense): string { d.profile.renderer }
  function Vendor(d: WebGLDefense): string { d.profile.vendor }
  function UnmaskedRenderer(d: WebGLDefense): string { d.profile.unmaskedRenderer }
  function UnmaskedVendor(d: WebGLDefense): string { d.profile.unmaskedVendor }

  /** Every seed reports the same masked renderer and vendor. */
  lemma MaskedStringsShared(seed: u64)
    ensures Renderer(New(seed)) == "WebKit WebGL"
    ensures Vendor(New(seed)) == "WebKit"
  {
  }

  /** The unmasked strings name the profile: seeds in different classes modulo
      three report different unmasked renderers and vendors. With
      `NewBySeedClass`, the unmasked renderer is the same iff the class is. */
  lemma UnmaskedStringsIdentifyProfile(s1: u64, s2: u64)
    requires s1 % 3 != s2 % 3
    ensures UnmaskedRenderer(New(s1)) != UnmaskedRenderer(New(s2))
    ensures UnmaskedVendor(New(s1)) != UnmaskedVendor(New(s2))
  {
  }

  /** The example of the source's tests: seeds 0 and 3 give the same renderer. */
  lemma ProfileSelectionExample()
    ensures Renderer(New(0)) == Renderer(New(3))
  {
    NewBySeedClass(0, 3);
  }

  /** `WebGLValue`, without the `Float` variant that `get_parameter` never gives. */
  datatype WebGLValue = Null | Int(i: i32) | IntVec2(x: i32, y: i32) | Str(s: string) | Bool(b: bool)

  const GL_MAX_TEXTURE_SIZE: u32 := 0x0D33
  const GL_MAX_VIEWPORT_DIMS: u32 := 0x0D3A
  const GL_MAX_VERTEX_ATTRIBS: u32 := 0x8869
  const GL_MAX_VERTEX_UNIFORM_VECTORS: u32 := 0x8DFB
  const GL_MAX_FRAGMENT_UNIFORM_VECTORS: u32 := 0x8DFD
  const GL_MAX_VARYING_VECTORS: u32 := 0x8DFC
  const GL_RENDERER: u32 := 0x1F01
  const GL_VENDOR: u32 := 0x1F00

  /** The parameter names `get_parameter` answers. */
  const KNOWN_PNAMES: set<u32> := {
    GL_MAX_TEXTURE_SIZE, GL_MAX_VIEWPORT_DIMS, GL_MAX_VERTEX_ATTRIBS,
    GL_MAX_VERTEX_UNIFORM_VECTORS, GL_MAX_FRAGMENT_UNIFORM_VECTORS,
    GL_MAX_VARYING_VECTORS, GL_RENDERER, GL_VENDOR}

  /** `get_parameter`: the profile's value for the eight known names, `Null` for
      every other name. */
  function GetParameter(d: WebGLDefense, pname: u32): (v: WebGLValue)
    ensures v.Null? <==> pname !in KNOWN_PNAMES
    ensures pname == GL_MAX_TEXTURE_SIZE ==> v == Int(d.profile.maxTextureSize)
    ensures pname == GL_MAX_VIEWPORT_DIMS ==> v == IntVec2(d.profile.maxViewportDims.0, d.profile.maxViewportDims.1)
    ensures pname == GL_MAX_VERTEX_ATTRIBS ==> v == Int(d.profile.maxVertexAttribs)
    ensures pname == GL_MAX_VERTEX_UNIFORM_VECTORS ==> v == Int(d.profile.maxVertexUniformVectors)
    ensures pname == GL_MAX_FRAGMENT_UNIFORM_VECTORS ==> v == Int(d.profile.maxFragmentUniformVectors)
    ensures pname == GL_MAX_VARYING_VECTORS ==> v == Int(d.profile.maxVaryingVectors)
  {
    if pname == GL_MAX_TEXTURE_SIZE then Int(d.profile.maxTextureSize)
    else if pname == GL_MAX_VIEWPORT_DIMS then
      IntVec2(d.profile.maxViewportDims.0, d.profile.maxViewportDims.1)
    else if pname == GL_MAX_VERTEX_ATTRIBS then Int(d.profile.maxVertexAttribs)
    else if pname == GL_MAX_VERTEX_UNIFORM_VECTORS then Int(d.profile.maxVertexUniformVectors)
    else if pname == GL_MAX_FRAGMENT_UNIFORM_VECTORS then Int(d.profile.maxFragmentUniformVectors)
    else if pname == GL_MAX_VARYING_VECTORS then Int(d.profile.maxVaryingVectors)
    else if pname == GL_RENDERER then Str(d.profile.renderer)
    else if pname == GL_VENDOR then Str(d.profile.vendor)
    else Null
  }

  /** `renderer()` and `vendor()` agree with the strings `get_parameter` reports. */
  lemma GetterAgreesWithParameter(d: WebGLDefense)
    ensures GetParameter(d, GL_RENDERER) == Str(Renderer(d))
    ensures GetParameter(d, GL_VENDOR) == Str(Vendor(d))
  {
  }

  /** Every identity reports a maximum texture size of at least 8192. */
  lemma MaxTextureSizeLarge(seed: u64)
    ensures GetParameter(New(seed), GL_MAX_TEXTURE_SIZE).Int?
    ensures GetParameter(New(seed), GL_MAX_TEXTURE_SIZE).i >= 8192
  {
  }

  /** `supported_extensions`: a fixed short list, the same for every profile. */
  const SUPPORTED_EXTENSIONS: seq<string> := [
    "OES_texture_float", "OES_texture_half_float", "OES_standard_derivatives",
    "OES_element_index_uint", "WEBGL_depth_texture", "WEBGL_lose_context"]

  function SupportedExtensions(d: WebGLDefense): (r: seq<string>)
    ensures |r| == 6
  {
    SUPPORTED_EXTENSIONS
  }

  /** The extensions reported are ones the selected profile has: the short list
      lies inside the smallest of the three lists, which the others contain. */
  lemma SupportedExtensionsInProfile(seed: u64)
    ensures forall e :: e in SupportedExtensions(New(seed)) ==> e in New(seed).profile.extensions
  {
    var d := New(seed);
    assert SUPPORTED_EXTENSIONS == [MESA_EXTENSIONS[7], MESA_EXTENSIONS[9],
      MESA_EXTENSIONS[6], MESA_EXTENSIONS[5], MESA_EXTENSIONS[12], MESA_EXTENSIONS[14]];
    assert MESA_EXTENSIONS[5] == INTEL_EXTENSIONS[7] == NVIDIA_EXTENSIONS[7];
    assert MESA_EXTENSIONS[6] == INTEL_EXTENSIONS[8] == NVIDIA_EXTENSIONS[8];
    assert MESA_EXTENSIONS[7] == INTEL_EXTENSIONS[9] == NVIDIA_EXTENSIONS[9];
    assert MESA_EXTENSIONS[9] == INTEL_EXTENSIONS[11] == NVIDIA_EXTENSIONS[11];
    assert MESA_EXTENSIONS[12] == INTEL_EXTENSIONS[18] == NVIDIA_EXTENSIONS[17];
    assert MESA_EXTENSIONS[14] == INTEL_EXTENSIONS[20] == NVIDIA_EXTENSIONS[19];
  }

  // ---------------------------------------------------------------- pixel noise

  /** The hasher: `DefaultHasher` fed the seed and then the byte index. */
  type PixelHasher = (u64, nat) -> u64

  /** `(hash & 0x03) as i16 - 1`. */
  function Noise(hash: u64): (n: int)
    ensures -1 <= n <= 2
  {
    hash % 4 - 1
  }

  /** `(byte as i16 + noise).clamp(0, 255) as u8`. */
  function Clamp(x: int): (b: u8)
    ensures 0 <= x <= 255 ==> b == x
    ensures x < 0 ==> b == 0
    ensures x > 255 ==> b == 255
  {
    if x < 0 then 0 else if x > 255 then 255 else x
  }

  /** The noised value of the byte at index `i`. */
  function NoisyByte(seed: u64, i: nat, b: u8, hash: PixelHasher): u8
  {
    Clamp(b + Noise(hash(seed, i)))
  }

  /** The data after the noise, byte by byte. */
  function Noised(seed: u64, data: seq<u8>, hash: PixelHasher): (r: seq<u8>)
    ensures |r| == |data|
    ensures forall i :: 0 <= i < |data| ==> r[i] == NoisyByte(seed, i, data[i], hash)
  {
    seq(|data|, i requires 0 <= i < |data| => NoisyByte(seed, i, data[i], hash))
  }

  /** `apply_pixel_noise`: each byte in place, by index. */
  method ApplyPixelNoise(d: WebGLDefense, data: array<u8>, hash: PixelHasher)
    modifies data
    ensures data[..] == Noised(d.seed, old(data[..]), hash)
  {
    var i := 0;
    while i < data.Length
      invariant 0 <= i <= data.Length
      invariant data[..i] == Noised(d.seed, old(data[..]), hash)[..i]
      invariant data[i..] == old(data[i..])
    {
      data[i] := Clamp(data[i] + Noise(hash(d.seed, i)));
      i := i + 1;
    }
  }

  /** Each noised byte is at most one below and two above the original, and is
      exactly the original moved by the noise unless that leaves 0..255. */
  lemma NoisedStaysClose(seed: u64, data: seq<u8>, hash: PixelHasher, i: nat)
    requires i < |data|
    ensures var r := Noised(seed, data, hash);
      && data[i] as int - 1 <= r[i] <= data[i] as int + 2
      && (1 <= data[i] <= 253 ==> r[i] as int - data[i] == Noise(hash(seed, i)))
  {
  }

  /** The noise of a byte depends only on the seed, its index and its value. */
  lemma NoisedPointwise(seed: u64, a: seq<u8>, b: seq<u8>, hash: PixelHasher, i: nat)
    requires i < |a| && i < |b| && a[i] == b[i]
    ensures Noised(seed, a, hash)[i] == Noised(seed, b, hash)[i]
  {
  }

  /** The data of the source's tests: 64 bytes of mid gray. */
  const GRAY: seq<u8> := seq(64, _ => 128)

  /** The example of the source's tests: 64 bytes of 128 stay within 127..130. */
  lemma NoisedGrayExample(hash: PixelHasher)
    ensures forall i :: 0 <= i < 64 ==> 127 <= Noised(42, GRAY, hash)[i] <= 130
  {
  }
}
