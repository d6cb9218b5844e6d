/**
 * ParticleSystemObject: numParticles particles of six floats each
 * (x, y, ix, iy, vx, vy), simulated on the GPU between two storage buffers
 * used ping-pong: bind group 0 reads buffer 0 and writes buffer 1, bind
 * group 1 the reverse, and the step counter picks the group.
 *
 * Math.random is a sequence of inputs, four per particle in call order.
 * The compute shader is not part of this model: what it writes is a
 * parameter of Compute.
 */
module Particles {
  import opened GpuBuffer

  const FloatsPerParticle: nat := 6
  const WorkgroupSize: nat := 256
  /** Vertices drawn per particle instance. */
  const VerticesPerParticle: nat := 128
  const DefaultParticles: nat := 4096

  datatype Particle = Particle(x: real, y: real, ix: real, iy: real, vx: real, vy: real)

  /** Particle i of a flat array. */
  function ParticleAt(d: seq<real>, i: nat): Particle
    requires FloatsPerParticle * i + FloatsPerParticle <= |d|
  {
    var o := FloatsPerParticle * i;
    Particle(d[o], d[o + 1], d[o + 2], d[o + 3], d[o + 4], d[o + 5])
  }

  /** The particle resetParticles makes from four random draws. */
  function Spawn(random: seq<real>, i: nat): Particle
    requires 4 * i + 4 <= |random|
  {
    var rx := random[4 * i] * 2.0 - 1.0;
    var ry := random[4 * i + 1] * 2.0 - 1.0;
    Particle(rx, ry, rx, ry, (random[4 * i + 2] - 0.5) * 0.01, (random[4 * i + 3] - 0.5) * 0.01)
  }

  predicate UnitInterval(random: seq<real>)
  {
    forall k :: 0 <= k < |random| ==> 0.0 <= random[k] < 1.0
  }

  /** With draws in [0, 1) a particle starts at rest on its initial
      position, inside [-1, 1) x [-1, 1), with each velocity component in
      [-0.005, 0.005). */
  lemma SpawnRange(random: seq<real>, i: nat)
    requires 4 * i + 4 <= |random| && UnitInterval(random)
    ensures var p := Spawn(random, i);
      && p.ix == p.x && p.iy == p.y
      && -1.0 <= p.x < 1.0 && -1.0 <= p.y < 1.0
      && -0.005 <= p.vx < 0.005 && -0.005 <= p.vy < 0.005
  {
    assert 0.0 <= random[4 * i] < 1.0 && 0.0 <= random[4 * i + 1] < 1.0;
    assert 0.0 <= random[4 * i + 2] < 1.0 && 0.0 <= random[4 * i + 3] < 1.0;
  }

  /** The buffers a bind group reads and writes. */
  datatype BindGroup = BindGroup(read: nat, write: nat)

  /** The two ping-pong bind groups. */
  function Group(k: nat): (g: BindGroup)
    requires k < 2
    ensures g.read == k && g.write == 1 - k
  {
    if k == 0 then BindGroup(0, 1) else BindGroup(1, 0)
  }

  /** Successive steps alternate: the buffer step s writes is the one step
      s + 1 reads, and each step reads and writes different buffers. */
  lemma PingPong(s: nat)
    ensures Group(s % 2).write == Group((s + 1) % 2).read
    ensures Group(s % 2).read != Group(s % 2).write
    ensures Group((s + 2) % 2) == Group(s % 2)
  {
  }

  class ParticleSystemObject {
    const numParticles: nat
    var step: nat
    /** The CPU copy of the particles. */
    var particles: array<real>
    /** The two GPU storage buffers. */
    var buffer0: seq<real>
    var buffer1: seq<real>

    function Buffer(k: nat): seq<real>
      reads this
    {
      if k == 0 then buffer0 else buffer1
    }

    predicate Valid()
      reads this
    {
      particles.Length == FloatsPerParticle * numParticles
      && |buffer0| == |buffer1| == particles.Length
    }

    constructor (numParticles: nat)
      ensures this.numParticles == numParticles && step == 0
    {
      this.numParticles := numParticles;
      step := 0;
      particles := new real[0];
      buffer0 := [];
      buffer1 := [];
    }

    /** Allocates the CPU array and two buffers of its byte length, then
        resets the particles. */
    method CreateParticleGeometry(random: seq<real>)
      requires |random| == 4 * numParticles
      modifies this
      ensures Valid() && fresh(particles) && step == 0
      ensures forall i :: 0 <= i < numParticles ==> ParticleAt(particles[..], i) == Spawn(random, i)
      ensures buffer0 == particles[..] && buffer1 == Zeros(ByteLength(particles[..]))
    {
      particles := new real[FloatsPerParticle * numParticles](_ => 0.0);
      buffer0 := Zeros(ByteLength(particles[..]));
      buffer1 := Zeros(ByteLength(particles[..]));
      ResetParticles(random);
    }

    /** Fills every particle from its four draws, sets step to 0 and
        uploads the array into buffer 0, the buffer step 0 reads. */
    method ResetParticles(random: seq<real>)
      requires Valid() && |random| == 4 * numParticles
      modifies this, particles
      ensures Valid() && step == 0 && particles == old(particles)
      ensures forall i :: 0 <= i < numParticles ==> ParticleAt(particles[..], i) == Spawn(random, i)
      ensures buffer0 == particles[..] && buffer1 == old(buffer1)
    {
      for i := 0 to numParticles
        invariant Valid() && particles == old(particles)
        invariant buffer0 == old(buffer0) && buffer1 == old(buffer1)
        invariant forall j :: 0 <= j < i ==> ParticleAt(particles[..], j) == Spawn(random, j)
      {
        SetParticle(i, random);
      }
      step := 0;
      buffer0 := Write(buffer0, 0, particles[..]);
      assert Fits(old(buffer0), 0, particles[..]);
      assert buffer0[0..particles.Length] == particles[..];
    }

    /** The six writes of particle i. */
    method SetParticle(i: nat, random: seq<real>)
      requires Valid() && i < numParticles && |random| == 4 * numParticles
      modifies particles
      ensures ParticleAt(particles[..], i) == Spawn(random, i)
      ensures forall j :: 0 <= j < numParticles && j != i ==> ParticleAt(particles[..], j) == ParticleAt(old(particles[..]), j)
    {
      var offset := i * 6;
      var rx := random[4 * i] * 2.0 - 1.0;
      var ry := random[4 * i + 1] * 2.0 - 1.0;
      particles[offset + 0] := rx;
      particles[offset + 1] := ry;
      particles[offset + 2] := rx;
      particles[offset + 3] := ry;
      particles[offset + 4] := (random[4 * i + 2] - 0.5) * 0.01;
      particles[offset + 5] := (random[4 * i + 3] - 0.5) * 0.01;
    }

    /** One compute pass: bind group step % 2, ceil(numParticles / 256)
        groups, then step + 1.  The shader's result lands in the group's
        write buffer, and the next render reads exactly that buffer. */
    method Compute(output: seq<real>) returns (group: BindGroup, d: Dispatch)
      requires Valid() && |output| == particles.Length
      modifies this
      ensures group == Group(old(step) % 2) && step == old(step) + 1
      ensures d.x == CeilDiv(numParticles, WorkgroupSize) && d.x * WorkgroupSize >= numParticles
      ensures Buffer(group.write) == output && Buffer(group.read) == old(Buffer(group.read))
      ensures Buffer(Group(step % 2).read) == output
      ensures Valid() && particles == old(particles)
    {
      group := Group(step % 2);
      d := Dispatch("computeMain", CeilDiv(numParticles, WorkgroupSize), 1);
      if group.write == 0 {
        buffer0 := output;
      } else {
        buffer1 := output;
      }
      step := step + 1;
    }

    /** One draw: bind group step % 2, 128 vertices for each particle. */
    method Render() returns (group: BindGroup, vertexCount: nat, instanceCount: nat)
      ensures group == Group(step % 2) && vertexCount == VerticesPerParticle && instanceCount == numParticles
    {
      group := Group(step % 2);
      vertexCount := VerticesPerParticle;
      instanceCount := numParticles;
    }
  }
}
